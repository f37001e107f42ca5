/** The table of transitions is exact: but for four entries, the controller takes each of them, and it takes no others. */
module Table {
  import opened Api
  import opened NodeMachine
  import opened Passes
  import opened Invariant
  import opened PassFacts
  import opened StateMachine
  import opened NodeOutcomes
  import opened RequestOutcomes
  import Approval
  import Lifecycle
  import Solo
  import Starting

  /** The pass assigns dst directly after src: the phases it assigns follow the stored one. */
  ghost predicate Assigns(p: Pass, s: Status, src: Phase, dst: Phase) {
    Follows([s.phase] + Reconcile(p, s).phases, src, dst)
  }

  ghost predicate Follows(phases: seq<Phase>, src: Phase, dst: Phase) {
    exists k :: 0 <= k < |phases| - 1 && phases[k] == src && phases[k + 1] == dst
  }

  /** Some pass over some well-formed status does. */
  ghost predicate Taken(src: Phase, dst: Phase) {
    exists p, s :: StatusOk(s) && Assigns(p, s, src, dst)
  }

  predicate Unused(src: Phase, dst: Phase) {
    || (src == PhaseNone && dst == PhaseValidating)
    || (src == PhasePlanned && dst == PhaseBlocked)
    || (src == PhaseBlocked && dst in {PhasePlanned, PhaseCompleted})
  }

  // ----- nothing else is taken -----

  lemma TakenIsAllowed(p: Pass, s: Status, src: Phase, dst: Phase)
    requires StatusOk(s) && Assigns(p, s, src, dst) && src != dst
    ensures dst in Transitions(src) && !Unused(src, dst)
  {
    Lifecycle.PassRefinesTable(p, s);
    Lifecycle.EntriesNeverTaken(p, s);
    RefinesAllows(s.phase, Reconcile(p, s), src, dst);
  }

  lemma TakenIsListed(src: Phase, dst: Phase)
    requires Taken(src, dst) && src != dst
    ensures dst in Transitions(src) && !Unused(src, dst)
  {
    var p, s :| StatusOk(s) && Assigns(p, s, src, dst);
    TakenIsAllowed(p, s, src, dst);
  }

  lemma RefinesAllows(from: Phase, o: Out, src: Phase, dst: Phase)
    requires Lifecycle.Refines(from, o) && Follows([from] + o.phases, src, dst) && src != dst
    ensures dst in Transitions(src) && (Unused(src, dst) ==> src == from && dst == o.mem.phase)
  {
    WalkStep(from, o.phases);
    if |o.phases| == 2 {
      WalkStep(o.phases[0], o.phases[1..]);
    }
  }

  lemma {:induction false} WalkStep(src: Phase, steps: seq<Phase>)
    requires Walk(src, steps) && steps != []
    ensures CanTransition(src, steps[0]) && Walk(steps[0], steps[1..])
  {
  }

  // ----- every other entry is taken -----

  lemma FirstFollows(from: Phase, phases: seq<Phase>)
    requires phases != []
    ensures Follows([from] + phases, from, phases[0])
    ensures |phases| >= 2 ==> Follows([from] + phases, phases[0], phases[1])
  {
    var all := [from] + phases;
    assert all[0] == from && all[0 + 1] == phases[0];
    assert |phases| >= 2 ==> all[1] == phases[0] && all[1 + 1] == phases[1];
  }

  lemma TakenFirst(p: Pass, s: Status, dst: Phase)
    requires StatusOk(s) && Reconcile(p, s).phases == [dst]
    ensures Taken(s.phase, dst)
  {
    FirstFollows(s.phase, Reconcile(p, s).phases);
    assert Assigns(p, s, s.phase, dst);
  }

  lemma OnlyPhase(src: Phase, o: Out, dst: Phase)
    requires Lifecycle.Refines(src, o) && src !in {PhasePending, PhaseValidating} && o.mem.phase == dst != src
    ensures o.phases == [dst]
  {
  }

  /** Where a pass that does not validate takes a request to. */
  lemma TakenEnd(p: Pass, s: Status, dst: Phase)
    requires StatusOk(s) && s.phase !in {PhasePending, PhaseValidating} && Reconcile(p, s).mem.phase == dst != s.phase
    ensures Taken(s.phase, dst)
  {
    Lifecycle.PassRefinesTable(p, s);
    OnlyPhase(s.phase, Reconcile(p, s), dst);
    TakenFirst(p, s, dst);
  }

  /** Where a pass that validates takes it to. */
  lemma TakenBeyond(p: Pass, s: Status, dst: Phase)
    requires StatusOk(s) && s.phase in {PhasePending, PhaseValidating} && Proceeds(p, s)
    requires Reconcile(p, s).mem.phase == dst != PhaseValidating
    ensures Taken(s.phase, PhaseValidating) && Taken(PhaseValidating, dst)
  {
    Lifecycle.ValidatingPhases(p, PolicyOf(p), s);
    assert Reconcile(p, s).phases == [PhaseValidating, dst];
    FirstFollows(s.phase, Reconcile(p, s).phases);
    assert Assigns(p, s, s.phase, PhaseValidating) && Assigns(p, s, PhaseValidating, dst);
  }

  const SPEC := RequestSpec(ModeExecute, StrategySerial, 1, 1, 0, 0, true, ApprovalAuto, [], false, false, None)
  const GATED := SPEC.(approval := ApprovalManualBeforeBoth)
  const BATCH := Batch(0, "", [Solo.NODE.name])
  const PLAN := Plan(StrategySerial, [BATCH], 1, 1)

  function At(spec: RequestSpec): Pass {
    Solo.At(spec, 0, 0, Solo.EMPTY)
  }

  /** A request without plan and records. */
  function Fresh(phase: Phase): Status {
    NEW_STATUS.(phase := phase)
  }

  /** A request with a plan, and perhaps waiting at the drain gate. */
  function WithPlan(phase: Phase, gate: Option<Gate>): Status {
    NEW_STATUS.(phase := phase, plan := Some(PLAN), gate := gate)
  }

  function Rec(ph: NodePhase): NodeRec {
    NodeRec(Solo.NODE.name, ph, 0, Some(0), if IsNodeTerminal(ph) then Some(0) else None, 0, 0, 0, 0,
            if ph in {NodeBlocked, NodeFailed} then BlockTimeout else NoReason)
  }

  /** A request with a record in the phase, and perhaps waiting at the uncordon gate. */
  function WithNode(phase: Phase, gate: Option<Gate>, ph: NodePhase): Status {
    Status(phase, gate, Some(PLAN), [Rec(ph)], Recount([Rec(ph)]), Some(0), None, Running)
  }

  lemma FreshOk(phase: Phase)
    requires phase in {PhaseNone, PhasePending, PhaseValidating, PhasePaused, PhaseBlocked}
    ensures StatusOk(Fresh(phase))
  {
  }

  lemma WithPlanOk(phase: Phase, gate: Option<Gate>)
    requires (phase in {PhasePlanned, PhasePaused} && gate == None) || (phase in {PhaseAwaitingApproval, PhasePaused} && gate == Some(GateDrain))
    ensures StatusOk(WithPlan(phase, gate))
  {
  }

  lemma RecDataOk(ph: NodePhase)
    requires ph != NodePending
    ensures DataOk(Some(PLAN), [Rec(ph)], Recount([Rec(ph)]), Some(0))
  {
    Starting.OneBatchShape(BATCH, [Rec(ph)]);
  }

  lemma WithNodeOk(phase: Phase, gate: Option<Gate>, ph: NodePhase)
    requires ph != NodePending && ((phase in {PhaseExecuting, PhasePaused} && gate == None)
                                   || (phase in {PhaseAwaitingApproval, PhasePaused} && gate == Some(GateUncordon))
                                   || (phase == PhaseBlocked && gate == None && ph == NodeBlocked))
    ensures StatusOk(WithNode(phase, gate, ph))
  {
    RecDataOk(ph);
    Solo.CountOne([Rec(ph)], {NodeBlocked});
  }

  /** A cancel, a pause and a policy that cannot be read. */
  lemma CutsShort(s: Status, dst: Phase)
    requires StatusOk(s) && s.phase != PhaseNone && !IsTerminal(s.phase)
    requires dst in {PhaseCancelled, PhaseFailed}
          || (dst == PhasePaused && s.phase in {PhasePlanned, PhaseExecuting, PhaseBlocked, PhaseAwaitingApproval})
    ensures Taken(s.phase, dst)
  {
    if dst == PhaseCancelled {
      CancelPhases(At(SPEC.(cancel := true)), s);
      TakenFirst(At(SPEC.(cancel := true)), s, dst);
    } else if dst == PhaseFailed {
      FailPhases(At(SPEC).(policy := None), s);
      TakenFirst(At(SPEC).(policy := None), s, dst);
    } else {
      FirstOutcome(At(SPEC.(pause := true)), s);
      TakenEnd(At(SPEC.(pause := true)), s, dst);
    }
  }

  lemma CancelPhases(p: Pass, s: Status)
    requires p.spec.cancel && s.phase != PhaseNone && !IsTerminal(s.phase)
    ensures Reconcile(p, s).phases == [PhaseCancelled]
  {
  }

  lemma FailPhases(p: Pass, s: Status)
    requires !p.spec.cancel && !p.spec.pause && p.policy.None? && s.phase != PhaseNone && !IsTerminal(s.phase)
    ensures Reconcile(p, s).phases == [PhaseFailed]
  {
  }

  lemma FromNone()
    ensures Taken(PhaseNone, PhasePending)
  {
    FreshOk(PhaseNone);
    TakenEnd(At(SPEC), Fresh(PhaseNone), PhasePending);
  }

  lemma NoDecision()
    ensures forall gate, d :: !Approval.Decided([], gate, d)
  {
  }

  /** The checks of the small target pass, and fail if the pass says so. */
  lemma SmallTarget(p: Pass)
    requires p.policy == Some(Solo.POLICY) && p.target == Some(Solo.TARGET)
    ensures ChecksFail(p, Solo.TARGET) <==> p.otherFailures
  {
  }

  lemma FromPending(dst: Phase)
    requires dst in {PhaseValidating, PhaseCancelled, PhaseFailed}
    ensures Taken(PhasePending, dst)
  {
    FreshOk(PhasePending);
    if dst == PhaseValidating {
      var p := At(SPEC).(target := None);
      ValidationOutcome(p, Fresh(PhasePending));
      TakenBeyond(p, Fresh(PhasePending), PhaseFailed);
    } else {
      CutsShort(Fresh(PhasePending), dst);
    }
  }

  lemma FromValidating(dst: Phase)
    requires dst in {PhaseAwaitingApproval, PhasePlanned, PhaseBlocked, PhaseCompleted, PhaseFailed, PhaseCancelled}
    ensures Taken(PhaseValidating, dst)
  {
    FreshOk(PhaseValidating);
    match dst
    case PhasePlanned => Validates(At(SPEC), dst);
    case PhaseAwaitingApproval => Validates(At(GATED), dst);
    case PhaseBlocked => Validates(At(SPEC).(otherFailures := true), dst);
    case PhaseCompleted => Validates(At(SPEC.(mode := ModeDryRun)), dst);
    case _ => CutsShort(Fresh(PhaseValidating), dst);
  }

  lemma Validates(p: Pass, dst: Phase)
    requires p.policy == Some(Solo.POLICY) && p.target == Some(Solo.TARGET) && !p.preflightError && !p.planError && !p.spec.cancel
    requires p.spec.gates == [] && p.spec.approval in {ApprovalAuto, ApprovalManualBeforeBoth}
    requires dst == if p.otherFailures then PhaseBlocked
                    else if p.spec.mode == ModeDryRun then PhaseCompleted
                    else if p.spec.approval == ApprovalAuto then PhasePlanned
                    else PhaseAwaitingApproval
    ensures Taken(PhaseValidating, dst)
  {
    var s := Fresh(PhaseValidating);
    FreshOk(PhaseValidating);
    NoDecision();
    SmallTarget(p);
    ValidationOutcome(p, s);
    TakenBeyond(p, s, dst);
  }

  lemma FromAwaiting(dst: Phase)
    requires dst in {PhasePlanned, PhaseExecuting, PhasePaused, PhaseCancelled, PhaseFailed}
    ensures Taken(PhaseAwaitingApproval, dst)
  {
    WithPlanOk(PhaseAwaitingApproval, Some(GateDrain));
    WithNodeOk(PhaseAwaitingApproval, Some(GateUncordon), NodePostCheck);
    match dst
    case PhasePlanned => GoesOn(WithPlan(PhaseAwaitingApproval, Some(GateDrain)), dst);
    case PhaseExecuting => GoesOn(WithNode(PhaseAwaitingApproval, Some(GateUncordon), NodePostCheck), dst);
    case _ => CutsShort(WithPlan(PhaseAwaitingApproval, Some(GateDrain)), dst);
  }

  lemma GoesOn(s: Status, dst: Phase)
    requires StatusOk(s) && s.phase == PhaseAwaitingApproval && s.gate.Some?
    requires dst == if s.gate == Some(GateUncordon) then PhaseExecuting else PhasePlanned
    ensures Taken(PhaseAwaitingApproval, dst)
  {
    WaitOutcome(At(SPEC), s);
    TakenEnd(At(SPEC), s, dst);
  }

  lemma FromPlanned(dst: Phase)
    requires dst in {PhaseExecuting, PhasePaused, PhaseCompleted, PhaseCancelled, PhaseFailed}
    ensures Taken(PhasePlanned, dst)
  {
    WithPlanOk(PhasePlanned, None);
    match dst
    case PhaseExecuting => Starts(At(SPEC), dst);
    case PhaseCompleted => Starts(At(SPEC).(target := Some(Target([], [], []))), dst);
    case _ => CutsShort(WithPlan(PhasePlanned, None), dst);
  }

  lemma Starts(p: Pass, dst: Phase)
    requires p == At(SPEC).(target := p.target) && p.target.Some?
    requires dst == if p.target.value.nodes == [] then PhaseCompleted else PhaseExecuting
    ensures Taken(PhasePlanned, dst)
  {
    WithPlanOk(PhasePlanned, None);
    PlannedOutcome(p, WithPlan(PhasePlanned, None));
    TakenEnd(p, WithPlan(PhasePlanned, None), dst);
  }

  lemma FromExecuting(dst: Phase)
    requires dst in {PhaseAwaitingApproval, PhasePaused, PhaseBlocked, PhaseCompleted, PhaseFailed, PhaseCancelled}
    ensures Taken(PhaseExecuting, dst)
  {
    WithNodeOk(PhaseExecuting, None, NodeCompleted);
    match dst
    case PhaseCompleted => Executes(At(SPEC), NodeCompleted, dst);
    case PhaseBlocked => Executes(At(SPEC), NodeBlocked, dst);
    case PhaseAwaitingApproval => Executes(At(GATED), NodePostCheck, dst);
    case _ => CutsShort(WithNode(PhaseExecuting, None, NodeCompleted), dst);
  }

  lemma Executes(p: Pass, ph: NodePhase, dst: Phase)
    requires (p == At(SPEC) && ((ph == NodeCompleted && dst == PhaseCompleted) || (ph == NodeBlocked && dst == PhaseBlocked)))
          || (p == At(GATED) && ph == NodePostCheck && dst == PhaseAwaitingApproval)
    ensures Taken(PhaseExecuting, dst)
  {
    var s := WithNode(PhaseExecuting, None, ph);
    WithNodeOk(PhaseExecuting, None, ph);
    NotStopped(p, s, ph);
    VisitsIff(p, s);
    assert s.nodes[0].phase == ph;
    Concludes(p, s, ph, dst);
    TakenEnd(p, s, dst);
  }

  lemma Concludes(p: Pass, s: Status, ph: NodePhase, dst: Phase)
    requires StatusOk(s) && s.phase == PhaseExecuting && Proceeds(p, s) && !Stops(p, s) && !RunsBatch(p, s)
    requires |s.nodes| == 1 && s.nodes[0].phase == ph
    requires if HoldsBack(p, s) then dst == PhaseAwaitingApproval
             else (ph == NodeCompleted && dst == PhaseCompleted) || (ph == NodeBlocked && dst == PhaseBlocked)
    ensures Reconcile(p, s).mem.phase == dst
  {
    UnvisitedEnds(p, s);
    if !HoldsBack(p, s) {
      OneEndsAs(s.nodes, ph, Reconcile(p, s).mem.phase);
    }
  }

  lemma OneEndsAs(ns: seq<NodeRec>, ph: NodePhase, dst: Phase)
    requires |ns| == 1 && ns[0].phase == ph && EndsAs(dst, ns)
    ensures ph == NodeCompleted ==> dst == PhaseCompleted
    ensures ph == NodeBlocked ==> dst == PhaseBlocked
  {
  }

  lemma NotStopped(p: Pass, s: Status, ph: NodePhase)
    requires p in {At(SPEC), At(GATED)} && s == WithNode(PhaseExecuting, None, ph) && ph != NodeFailed
    ensures !Stops(p, s) && (HoldsBack(p, s) <==> p == At(GATED) && ph == NodePostCheck)
  {
    InPhasesIsCount(s.nodes, {NodeFailed});
    Solo.CountOne(s.nodes, {NodeFailed});
    NoDecision();
    assert s.nodes[0].phase == ph;
  }

  lemma FromPaused(dst: Phase)
    requires dst in {PhaseExecuting, PhasePlanned, PhaseValidating, PhaseAwaitingApproval, PhaseCancelled, PhaseFailed}
    ensures Taken(PhasePaused, dst)
  {
    FreshOk(PhasePaused);
    WithPlanOk(PhasePaused, None);
    WithPlanOk(PhasePaused, Some(GateDrain));
    WithNodeOk(PhasePaused, None, NodePostCheck);
    match dst
    case PhaseValidating => Resumes(Fresh(PhasePaused), dst);
    case PhasePlanned => Resumes(WithPlan(PhasePaused, None), dst);
    case PhaseAwaitingApproval => Resumes(WithPlan(PhasePaused, Some(GateDrain)), dst);
    case PhaseExecuting => Resumes(WithNode(PhasePaused, None, NodePostCheck), dst);
    case _ => CutsShort(Fresh(PhasePaused), dst);
  }

  lemma Resumes(s: Status, dst: Phase)
    requires StatusOk(s) && s.phase == PhasePaused
    requires dst == if s.gate.Some? then PhaseAwaitingApproval else if s.nodes != [] then PhaseExecuting
                    else if s.plan.Some? then PhasePlanned else PhaseValidating
    ensures Taken(PhasePaused, dst)
  {
    PausedOutcome(At(SPEC), s);
    TakenEnd(At(SPEC), s, dst);
  }

  lemma FromBlocked(dst: Phase)
    requires dst in {PhaseValidating, PhaseExecuting, PhasePaused, PhaseFailed, PhaseCancelled}
    ensures Taken(PhaseBlocked, dst)
  {
    FreshOk(PhaseBlocked);
    WithNodeOk(PhaseBlocked, None, NodeBlocked);
    match dst
    case PhaseValidating => TriesAgain(Fresh(PhaseBlocked), dst);
    case PhaseExecuting => TriesAgain(WithNode(PhaseBlocked, None, NodeBlocked), dst);
    case _ => CutsShort(Fresh(PhaseBlocked), dst);
  }

  lemma TriesAgain(s: Status, dst: Phase)
    requires StatusOk(s) && s.phase == PhaseBlocked && s.startTime in {None, Some(0)}
    requires dst == if s.nodes == [] then PhaseValidating else PhaseExecuting
    ensures Taken(PhaseBlocked, dst)
  {
    BlockedOutcome(At(SPEC), s);
    TakenEnd(At(SPEC), s, dst);
  }

  /** The controller moves a request from one phase directly to another if and only if the table says so and the pair is none
    * of the four that it has no use for. */
  lemma TableIsExact(src: Phase, dst: Phase)
    requires src != dst
    ensures Taken(src, dst) <==> dst in Transitions(src) && !Unused(src, dst)
  {
    if Taken(src, dst) {
      TakenIsListed(src, dst);
    }
    if dst in Transitions(src) && !Unused(src, dst) {
      AllTaken(src, dst);
    }
  }

  lemma AllTaken(src: Phase, dst: Phase)
    requires dst in Transitions(src) && !Unused(src, dst)
    ensures Taken(src, dst)
  {
    match src
    case PhaseNone => FromNone();
    case PhasePending => FromPending(dst);
    case PhaseValidating => FromValidating(dst);
    case PhaseAwaitingApproval => FromAwaiting(dst);
    case PhasePlanned => FromPlanned(dst);
    case PhaseExecuting => FromExecuting(dst);
    case PhasePaused => FromPaused(dst);
    case PhaseBlocked => FromBlocked(dst);
  }
}
