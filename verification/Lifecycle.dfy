/** The life of a request: the phases it takes, pausing and resuming it, and what its nodes are. */
module Lifecycle {
  import opened Api
  import opened Passes
  import opened Invariant
  import opened PassFacts
  import opened StateMachine
  import opened Journal
  import Planner

  // ----- the table of transitions -----

  /** The phases the pass assigns lead by the table from the stored phase to the one it ends with. */
  ghost predicate Refines(src: Phase, o: Out) {
    && Walk(src, o.phases)
    && o.mem.phase == (if o.phases == [] then src else o.phases[|o.phases| - 1])
    && |o.phases| <= 2
    && (|o.phases| == 2 ==> o.phases[0] == PhaseValidating && src in {PhasePending, PhaseValidating})
  }

  /** At most one phase is assigned, and the table allows it. */
  ghost predicate OneStep(src: Phase, o: Out) {
    if o.phases == [] then o.mem.phase == src else o.phases == [o.mem.phase] && CanTransition(src, o.mem.phase)
  }

  lemma OneStepRefines(src: Phase, o: Out)
    requires OneStep(src, o)
    ensures Refines(src, o)
  {
    if o.phases != [] {
      assert o.phases[1..] == [];
    }
  }

  lemma ThroughValidating(src: Phase, o: Out)
    requires o.phases == [PhaseValidating, o.mem.phase] && CanTransition(PhaseValidating, o.mem.phase)
    requires src in {PhasePending, PhaseValidating}
    ensures Refines(src, o)
  {
    var rest := [o.mem.phase];
    assert rest[1..] == [];
    assert Walk(PhaseValidating, rest);
    assert o.phases[1..] == rest;
  }

  lemma ValidatingPhases(p: Pass, pol: PolicySpec, s: Status)
    ensures var o := Validating(p, pol, s);
            || (o.phases == [PhaseValidating] && o.mem.phase == PhaseValidating)
            || (o.phases == [PhaseValidating, o.mem.phase] && CanTransition(PhaseValidating, o.mem.phase))
  {
  }

  lemma ValidatingRefines(p: Pass, pol: PolicySpec, s: Status)
    requires s.phase in {PhasePending, PhaseValidating}
    ensures Refines(s.phase, Validating(p, pol, s))
  {
    ValidatingPhases(p, pol, s);
    PhasesRefine(s.phase, Validating(p, pol, s));
  }

  lemma PhasesRefine(src: Phase, o: Out)
    requires src in {PhasePending, PhaseValidating}
    requires || (o.phases == [PhaseValidating] && o.mem.phase == PhaseValidating)
             || (o.phases == [PhaseValidating, o.mem.phase] && CanTransition(PhaseValidating, o.mem.phase))
    ensures Refines(src, o)
  {
    if |o.phases| == 1 {
      OneStepRefines(src, o);
    } else {
      ThroughValidating(src, o);
    }
  }

  lemma AdvanceSteps(p: Pass, pol: PolicySpec, s: Status)
    requires s.phase == PhaseExecuting
    ensures OneStep(s.phase, Advance(p, pol, s))
  {
  }

  lemma ExecutingSteps(p: Pass, pol: PolicySpec, s: Status)
    requires s.phase == PhaseExecuting
    ensures OneStep(s.phase, Executing(p, pol, s))
  {
    AdvanceSteps(p, pol, s);
  }

  lemma PlannedSteps(p: Pass, pol: PolicySpec, s: Status)
    requires s.phase == PhasePlanned
    ensures OneStep(s.phase, Planned(p, pol, s))
  {
  }

  lemma HeldSteps(p: Pass, pol: PolicySpec, s: Status)
    requires s.phase in {PhaseAwaitingApproval, PhasePaused, PhaseBlocked}
    ensures OneStep(s.phase, Dispatch(p, pol, s))
  {
  }

  lemma DispatchRefines(p: Pass, pol: PolicySpec, s: Status)
    ensures Refines(s.phase, Dispatch(p, pol, s))
  {
    if s.phase in {PhasePending, PhaseValidating} {
      ValidatingRefines(p, pol, s);
    } else {
      match s.phase {
        case PhaseExecuting => ExecutingSteps(p, pol, s);
        case PhasePlanned => PlannedSteps(p, pol, s);
        case PhaseAwaitingApproval => HeldSteps(p, pol, s);
        case PhasePaused => HeldSteps(p, pol, s);
        case PhaseBlocked => HeldSteps(p, pol, s);
        case _ =>
      }
      OneStepRefines(s.phase, Dispatch(p, pol, s));
    }
  }

  /** Every phase a pass assigns is allowed by the table after the one before it - from any status at all, though
    * the controller never consults the table. */
  lemma PassRefinesTable(p: Pass, s: Status)
    ensures Refines(s.phase, Reconcile(p, s))
  {
    if Proceeds(p, s) {
      DispatchRefines(p, PolicyOf(p), s);
    } else {
      OneStepRefines(s.phase, Reconcile(p, s));
    }
  }

  lemma RefinesEnds(src: Phase, o: Out)
    requires Refines(src, o)
    ensures CanTransition(src, o.mem.phase) || (src == PhasePending && CanTransition(PhaseValidating, o.mem.phase))
  {
    if |o.phases| == 2 {
      assert Walk(o.phases[0], o.phases[1..]);
      assert o.phases[1..][0] == o.phases[1];
    }
  }

  /** A stored phase change is one step of the table, or two with Validating, never stored, in between. The pair
    * from Pending to Planned is of the second kind only. */
  lemma StoredChangeRefinesTable(w: World, p: Pass)
    ensures var src, dst := w.status.phase, Next(w, p).status.phase;
            CanTransition(src, dst) || (src == PhasePending && CanTransition(PhaseValidating, dst))
    ensures !CanTransition(PhasePending, PhasePlanned)
  {
    PassRefinesTable(p, w.status);
    RefinesEnds(w.status.phase, Reconcile(p, w.status));
  }

  /** What a validating pass reads takes the request past Validating without ending it as failed or rejected. */
  predicate PassesValidation(p: Pass, pol: PolicySpec) {
    && p.target.Some?
    && ((p.target.value.nodes == [] && p.target.value.missing == [])
        || (!p.preflightError
            && (PreflightFails(p, pol, p.target.value)
                || (!p.planError && (p.spec.mode.ModeDryRun? || VerdictAt(p, pol, GateDrain) != Rejected)))))
  }

  /** The stored change of a pending request is missing from the table exactly when its one pass takes it past
    * Validating: to Planned, AwaitingApproval, Blocked or Completed. */
  lemma PendingLeavesTableIff(w: World, p: Pass)
    requires w.status.phase == PhasePending && Proceeds(p, w.status) && p.writeOk
    ensures !CanTransition(PhasePending, Next(w, p).status.phase) <==> PassesValidation(p, PolicyOf(p))
  {
    ValidatingLeaves(p, PolicyOf(p), w.status);
  }

  lemma ValidatingLeaves(p: Pass, pol: PolicySpec, s: Status)
    ensures var o := Validating(p, pol, s);
            PassesValidation(p, pol) <==>
              o.wrote && o.mem.phase in {PhasePlanned, PhaseAwaitingApproval, PhaseBlocked, PhaseCompleted}
    ensures !Validating(p, pol, s).wrote || Validating(p, pol, s).mem.phase
              in {PhasePlanned, PhaseAwaitingApproval, PhaseBlocked, PhaseCompleted, PhaseFailed, PhaseCancelled}
  {
  }

  /** Four entries of the table are never taken. */
  lemma EntriesNeverTaken(p: Pass, s: Status)
    requires StatusOk(s)
    ensures s.phase == PhaseNone ==> Reconcile(p, s).mem.phase != PhaseValidating
    ensures s.phase == PhasePlanned ==> Reconcile(p, s).mem.phase != PhaseBlocked
    ensures s.phase == PhaseBlocked ==> Reconcile(p, s).mem.phase !in {PhasePlanned, PhaseCompleted}
  {
  }

  /** Nothing happens to a finished request any more. */
  lemma {:induction false} FinishedForGood(w: World, ps: seq<Pass>)
    requires IsTerminal(w.status.phase)
    ensures RunFrom(w, ps) == w
  {
    if ps != [] {
      FinishedForGood(w, ps[..|ps| - 1]);
      IdleNext(w, ps[|ps| - 1]);
    }
  }

  lemma IdleNext(w: World, p: Pass)
    requires Reconcile(p, w.status) == Idle(w.status)
    ensures Next(w, p) == w
  {
    assert w.trace + [] == w.trace;
  }

  // ----- pause and resume -----

  /** The pass holds the request, and is not cut short by a cancel or an unknown policy. */
  predicate Holds(p: Pass) {
    p.spec.pause && !p.spec.cancel && p.policy.Some?
  }

  predicate Resumes(p: Pass) {
    !p.spec.pause && !p.spec.cancel && p.policy.Some?
  }

  /** The phase a request paused in phase comes back to. */
  function BackIn(s: Status): Phase {
    if s.phase != PhaseBlocked then s.phase
    else if s.nodes != [] then PhaseExecuting
    else PhaseValidating
  }

  lemma {:induction false} HeldStays(w: World, ps: seq<Pass>)
    requires w.status.phase == PhasePaused && forall i | 0 <= i < |ps| :: Holds(ps[i])
    ensures RunFrom(w, ps) == w
  {
    if ps != [] {
      HeldStays(w, ps[..|ps| - 1]);
      IdleNext(w, ps[|ps| - 1]);
    }
  }

  lemma PauseKeeps(w: World, p: Pass)
    requires CanPause(w.status.phase) && Holds(p) && p.writeOk
    ensures Next(w, p) == w.(status := w.status.(phase := PhasePaused))
  {
    assert w.trace + [] == w.trace;
  }

  lemma ResumeReturns(w: World, s: Status, p: Pass)
    requires StatusOk(s) && CanPause(s.phase) && Resumes(p) && p.writeOk
    requires w.status == s.(phase := PhasePaused)
    ensures Next(w, p) == w.(status := s.(phase := BackIn(s)))
  {
    assert w.trace + [] == w.trace;
  }

  /** A pause of any length, once resumed, has changed nothing: planned, executing and awaiting requests are exactly
    * where they were, with the same gate pending; a blocked one retries or validates again, as it would have. */
  lemma {:induction false} PauseAndResume(w: World, p: Pass, hold: seq<Pass>, q: Pass)
    requires StatusOk(w.status) && CanPause(w.status.phase)
    requires Holds(p) && Resumes(q) && p.writeOk && q.writeOk
    requires forall i | 0 <= i < |hold| :: Holds(hold[i])
    ensures Next(RunFrom(Next(w, p), hold), q) == w.(status := w.status.(phase := BackIn(w.status)))
  {
    var w' := w.(status := w.status.(phase := PhasePaused));
    PauseKeeps(w, p);
    HeldStays(w', hold);
    ResumeReturns(w', w.status, q);
  }

  // ----- which nodes -----

  /** Execution starts with one pending record for every node of the target, as often as the target has it. */
  lemma StartCoversTarget(p: Pass, s: Status)
    requires StatusOk(s) && Starts(p, s)
    ensures multiset(NodeNames(NodesAfter(p, s))) == multiset(Planner.Names(p.target.value.nodes))
    ensures forall i | 0 <= i < |NodesAfter(p, s)| :: NodesAfter(p, s)[i].phase == NodePending
  {
    PlanRecords(p, PolicyOf(p), p.target.value);
  }

  lemma ShapeKept(p: Pass, s: Status)
    requires StatusOk(s) && s.nodes != []
    ensures SameShape(NodesAfter(p, s), s.nodes)
  {
    if RunsBatch(p, s) {
      BatchKeepsNodes(p, PolicyOf(p), s);
    }
  }

  /** From then on the records are those nodes, in those batches, for good. */
  lemma {:induction false} RecordsKeepTheirNodes(w: World, ps: seq<Pass>)
    requires StatusOk(w.status) && w.status.nodes != []
    ensures SameShape(RunFrom(w, ps).status.nodes, w.status.nodes)
  {
    if ps != [] {
      var n := |ps| - 1;
      var s := RunFrom(w, ps[..n]).status;
      RecordsKeepTheirNodes(w, ps[..n]);
      StatusOkFrom(w, ps[..n]);
      PassNodes(ps[n], s);
      ShapeKept(ps[n], s);
    }
  }

  /** On every run the records, if there are any, are the flattening of the stored plan's batches. */
  lemma RecordsAreThePlan(ps: seq<Pass>)
    requires Run(ps).status.nodes != []
    ensures Run(ps).status.plan.Some?
    ensures NodeNames(Run(ps).status.nodes) == Planner.Flatten(Run(ps).status.plan.value.batches)
  {
    StatusAlwaysOk(ps);
    SameNames(Run(ps).status.nodes, InitNodes(Run(ps).status.plan.value.batches));
    RecordNames(Run(ps).status.plan.value.batches);
  }

  lemma SameNames(a: seq<NodeRec>, b: seq<NodeRec>)
    requires SameShape(a, b)
    ensures NodeNames(a) == NodeNames(b)
  {
    assert forall i | 0 <= i < |a| :: NodeNames(a)[i] == NodeNames(b)[i];
  }

  /** A request that completed by execution completed or skipped every node, and each completed node was seen empty
    * by an eviction round. */
  lemma CompletedMeansDone(ps: seq<Pass>, i: nat)
    requires Run(ps).status.phase == PhaseCompleted && i < |Run(ps).status.nodes|
    ensures var r := Run(ps).status.nodes[i];
            r.phase == NodeSkipped || (r.phase == NodeCompleted && EvictRound(r.node, Some(0)) in Run(ps).trace)
  {
    StatusAlwaysOk(ps);
    if Run(ps).status.nodes[i].phase != NodeSkipped {
      assert AllDone(Run(ps).status.nodes);
      DrainedMeansEmpty(ps, i);
    }
  }
}
