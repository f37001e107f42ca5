/** What a pass makes of a request, phase by phase: when exactly the request moves and where to, in terms of what the pass
  * reads. */
module RequestOutcomes {
  import opened Api
  import opened NodeMachine
  import opened Passes
  import opened Invariant
  import opened PassFacts
  import opened NodeOutcomes
  import opened StateMachine
  import Approval
  import Lifecycle
  import Planner
  import Policy
  import Preflight

  // ----- before the phase has its say -----

  /** A request that is not over ends at a cancel; without one it pauses where it can if it is asked to, and fails if its
    * policy cannot be read. Otherwise its phase decides. */
  lemma FirstOutcome(p: Pass, s: Status)
    ensures s.phase == PhaseNone ==> Reconcile(p, s).mem == s.(phase := PhasePending)
    ensures s.phase in {PhaseCompleted, PhaseFailed, PhaseCancelled} ==> Reconcile(p, s).mem == s && !Reconcile(p, s).wrote
    ensures var o, pausing := Reconcile(p, s), p.spec.pause && s.phase in {PhasePlanned, PhaseExecuting, PhaseBlocked, PhaseAwaitingApproval};
            s.phase !in {PhaseNone, PhaseCompleted, PhaseFailed, PhaseCancelled} ==>
              && (p.spec.cancel ==> o.mem.phase == PhaseCancelled && o.mem.ending == CancelledByUser && o.wrote)
              && (!p.spec.cancel && pausing ==> o.mem == s.(phase := PhasePaused) && o.wrote && o.events == [])
              && (!p.spec.cancel && !pausing && p.policy.None? ==> o.mem.phase == PhaseFailed && o.mem.ending == Aborted && o.wrote)
              && (Proceeds(p, s) <==> !p.spec.cancel && !pausing && p.policy.Some?)
  {
  }

  // ----- validation -----

  /** The positions of the nodes that are unschedulable already. */
  ghost function DownAt(ts: seq<TargetNode>): set<nat> {
    set i: nat | i < |ts| && ts[i].unschedulable
  }

  ghost function Down(ts: seq<TargetNode>): nat {
    |DownAt(ts)|
  }

  lemma {:induction false} DownIsCount(ts: seq<TargetNode>)
    ensures Down(ts) == Preflight.CountCordoned(ts)
  {
    if ts != [] {
      var n := |ts| - 1;
      DownIsCount(ts[..n]);
      DownLast(ts, if ts[n].unschedulable then {n} else {});
      assert DownAt(ts[..n]) !! {n};
    }
  }

  lemma DownLast(ts: seq<TargetNode>, more: set<nat>)
    requires ts != []
    requires var n := |ts| - 1; more == if ts[n].unschedulable then {n} else {}
    ensures DownAt(ts) == DownAt(ts[..|ts| - 1]) + more
  {
    var n := |ts| - 1;
    forall i: nat ensures i in DownAt(ts) <==> i in DownAt(ts[..n]) + more {
      if i < n {
        assert ts[..n][i] == ts[i];
      }
    }
  }

  /** The most nodes the request takes out of service itself at one time: all that are in service, or, if it returns them, no
    * more than it may have in flight. */
  ghost function TakenDown(p: Pass, t: Target): int
    requires p.policy.Some?
  {
    var up := |t.nodes| - Down(t.nodes);
    if !p.spec.uncordonAfter then up
    else if up <= Wanted(p) && up <= ClusterCap(p) then up
    else if Wanted(p) <= ClusterCap(p) then Wanted(p)
    else ClusterCap(p)
  }

  /** A cap is configured, and the nodes that are unschedulable in the scope - all nodes the target matches, or else the
    * target - exceed the limit together with those the request takes down. */
  ghost predicate OverLimit(p: Pass, t: Target)
    requires p.policy.Some?
  {
    var raw, scope := p.policy.value, if t.universe != [] then t.universe else t.nodes;
    && (raw.maxUnavailableNodes > 0 || raw.maxUnavailablePercent > 0)
    && Down(scope) + TakenDown(p, t) > Policy.MaxUnavailable(raw, |scope|)
  }

  /** A check fails: nodes the request names do not exist, too many nodes would be unavailable, or one of the others. */
  ghost predicate ChecksFail(p: Pass, t: Target)
    requires p.policy.Some?
  {
    t.missing != [] || p.otherFailures || OverLimit(p, t)
  }

  lemma PreflightIs(p: Pass, t: Target)
    requires p.policy.Some?
    ensures PreflightFails(p, PolicyOf(p), t) <==> ChecksFail(p, t)
  {
    DownIsCount(t.nodes);
    DownIsCount(Preflight.Scope(t));
  }

  /** The pass reads a target that has something in it, and the checks give a verdict. */
  ghost predicate Checked(p: Pass) {
    p.target.Some? && !(p.target.value.nodes == [] && p.target.value.missing == []) && !p.preflightError
  }

  /** The verdict is that the request may be planned, and it can be. */
  ghost predicate Admits(p: Pass) {
    p.policy.Some? && Checked(p) && !ChecksFail(p, p.target.value) && !p.planError
  }

  ghost predicate Refused(p: Pass, gate: Gate)
    requires p.policy.Some?
  {
    ApprovalIn(p) in Approval.Asking(gate) && Approval.Decided(p.spec.gates, gate, DecisionRejected)
  }

  /** No two decisions are in force for a gate. */
  lemma DecidedOnce(gates: seq<GateDecision>, gate: Gate)
    ensures !(Approval.Decided(gates, gate, DecisionApproved) && Approval.Decided(gates, gate, DecisionRejected))
  {
    Approval.VerdictMeaning(ApprovalManualBeforeBoth, gates, gate);
  }

  /** A pending or validating request is blocked if and only if the checks fail; planned if and only if it is admitted, is no
    * dry run and the drain gate does not withhold it; and so on. */
  lemma ValidationOutcome(p: Pass, s: Status)
    requires s.phase in {PhasePending, PhaseValidating} && Proceeds(p, s)
    ensures var o := Reconcile(p, s);
            && (o.mem.phase == PhaseBlocked <==> Checked(p) && ChecksFail(p, p.target.value))
            && (o.mem.phase == PhaseFailed <==> p.target.None?)
            && (o.mem.phase == PhaseCompleted <==>
                  (p.target.Some? && p.target.value.nodes == [] && p.target.value.missing == []) || (Admits(p) && p.spec.mode == ModeDryRun))
            && (o.mem.phase == PhasePlanned <==> Admits(p) && p.spec.mode != ModeDryRun && !Withheld(p, GateDrain))
            && (o.mem.phase == PhaseCancelled <==> Admits(p) && p.spec.mode != ModeDryRun && Refused(p, GateDrain))
            && (o.mem.phase == PhaseAwaitingApproval <==>
                  Admits(p) && p.spec.mode != ModeDryRun && Withheld(p, GateDrain) && !Refused(p, GateDrain))
    ensures var o := Reconcile(p, s);
            && (o.err <==> p.target.Some? && (p.preflightError || p.planError) && o.mem.phase == PhaseValidating)
            && (o.wrote <==> !o.err) && (o.err <==> o.mem.phase == PhaseValidating)
            && (o.mem.phase == PhaseAwaitingApproval ==> o.mem.gate == Some(GateDrain))
            && (o.mem.phase == PhaseCancelled ==> o.mem.ending == RejectedAtGate(GateDrain))
  {
    if p.target.Some? {
      PreflightIs(p, p.target.value);
    }
    VerdictIn(p, GateDrain);
    DecidedOnce(p.spec.gates, GateDrain);
    ValidatingOutcome(p, PolicyOf(p), s);
  }

  lemma ValidatingOutcome(p: Pass, pol: PolicySpec, s: Status)
    ensures var o, v := Validating(p, pol, s), VerdictAt(p, pol, GateDrain);
            if p.target.None? then o.mem.phase == PhaseFailed && o.wrote && !o.err
            else if p.target.value.nodes == [] && p.target.value.missing == [] then o.mem.phase == PhaseCompleted && o.wrote && !o.err
            else if p.preflightError then o.mem.phase == PhaseValidating && o.err && !o.wrote
            else if PreflightFails(p, pol, p.target.value) then o.mem.phase == PhaseBlocked && o.wrote && !o.err
            else if p.planError then o.mem.phase == PhaseValidating && o.err && !o.wrote
            else
              && o.wrote && !o.err
              && o.mem.phase == (if p.spec.mode == ModeDryRun then PhaseCompleted
                                 else if v == Rejected then PhaseCancelled
                                 else if v == Undecided then PhaseAwaitingApproval
                                 else PhasePlanned)
              && (o.mem.phase == PhaseAwaitingApproval ==> o.mem.gate == Some(GateDrain))
              && (o.mem.phase == PhaseCancelled ==> o.mem.ending == RejectedAtGate(GateDrain))
  {
  }

  // ----- waiting for approval -----

  /** A request that awaits approval goes on if and only if its gate no longer withholds it - to execution if nodes wait to
    * be uncordoned, to the plan if they wait to be drained -, is cancelled if and only if the gate is refused, and else
    * stays as it is. */
  lemma WaitOutcome(p: Pass, s: Status)
    requires StatusOk(s) && s.phase == PhaseAwaitingApproval && Proceeds(p, s)
    ensures s.gate.Some?
    ensures var o, gate := Reconcile(p, s), s.gate.value;
            && (o.mem == s.(gate := None, phase := if gate == GateUncordon then PhaseExecuting else PhasePlanned) <==> !Withheld(p, gate))
            && (o.mem.phase == PhaseCancelled <==> Refused(p, gate))
            && (o.mem.phase == PhaseCancelled ==> o.mem.ending == RejectedAtGate(gate))
            && (o.mem == s && !o.wrote <==> Withheld(p, gate) && !Refused(p, gate))
  {
    VerdictIn(p, s.gate.value);
    DecidedOnce(p.spec.gates, s.gate.value);
    assert Reconcile(p, s) == Settle(p, s, s.gate.value, VerdictAt(p, PolicyOf(p), s.gate.value));
  }

  // ----- starting -----

  /** A planned request executes if and only if it may act, there is something to do and its window is open; advisory ones
    * stay planned; and so on. */
  lemma PlannedOutcome(p: Pass, s: Status)
    requires s.phase == PhasePlanned && Proceeds(p, s)
    ensures var o, planned := Reconcile(p, s), p.target.Some? && !p.planError && p.spec.mode != ModeAdvisory;
            && (o.mem.phase == PhaseExecuting <==> planned && p.target.value.nodes != [] && p.windows == Some(true))
            && (o.mem.phase == PhaseCompleted <==> planned && p.target.value.nodes == [])
            && (o.mem.phase == PhaseFailed <==> p.target.None? || (planned && p.target.value.nodes != [] && p.windows == None))
            && (o.mem.phase in {PhasePlanned, PhaseExecuting, PhaseCompleted, PhaseFailed})
            && (o.err <==> p.target.Some? && p.planError)
            && (o.mem.phase == PhaseExecuting && s.startTime.None? ==> o.mem.startTime == Some(p.now))
  {
    PlanningOutcome(p, PolicyOf(p), s);
  }

  lemma PlanningOutcome(p: Pass, pol: PolicySpec, s: Status)
    requires s.phase == PhasePlanned
    ensures var o := Planned(p, pol, s);
            if p.target.None? then o.mem.phase == PhaseFailed && !o.err
            else if p.planError then o.mem.phase == PhasePlanned && o.err
            else
              && !o.err
              && o.mem.phase == (if p.spec.mode == ModeAdvisory then PhasePlanned
                                 else if p.target.value.nodes == [] then PhaseCompleted
                                 else match p.windows case None => PhaseFailed
                                                      case Some(open) => if open then PhaseExecuting else PhasePlanned)
              && (o.mem.phase == PhaseExecuting && s.startTime.None? ==> o.mem.startTime == Some(p.now))
  {
    if p.target.Some? {
      assert |p.target.value.nodes| == 0 <==> p.target.value.nodes == [];
    }
  }

  /** The plan of a pass in its own terms: serial if no strategy is named, for all nodes of the target, with the effective
    * concurrency, and with batches of the size named or else of that concurrency. */
  lemma PlanTerms(p: Pass, t: Target)
    requires p.policy.Some?
    ensures var plan, wanted := PlanFor(p, PolicyOf(p), t), if Wanted(p) <= ClusterCap(p) then Wanted(p) else ClusterCap(p);
            && plan.strategy == (if p.spec.strategy == StrategyUnset then StrategySerial else p.spec.strategy)
            && plan.totalNodes == |t.nodes| && plan.maxConcurrent == wanted
            && plan.batches == Planner.Batches(plan.strategy, t.nodes, p.spec.batchSize, wanted)
            && (plan.strategy == StrategySerial ==> forall i | 0 <= i < |plan.batches| :: |plan.batches[i].nodes| == 1)
            && (plan.strategy == StrategyBatched ==>
                  var size := if p.spec.batchSize > 0 then p.spec.batchSize else wanted;
                  forall i | 0 <= i < |plan.batches| :: if i < |plan.batches| - 1 then |plan.batches[i].nodes| == size
                                                        else 1 <= |plan.batches[i].nodes| <= size)
  {
    var plan := PlanFor(p, PolicyOf(p), t);
    Planner.BatchShapes(plan.strategy, t.nodes, p.spec.batchSize, plan.maxConcurrent);
  }

  // ----- executing -----

  /** How many failed nodes end a request. */
  ghost function Tolerated(p: Pass): int
    requires p.policy.Some?
  {
    if p.policy.value.failureThreshold > 1 then p.policy.value.failureThreshold else 1
  }

  /** The request has run out of time, or as many nodes have failed as end it. */
  ghost predicate Stops(p: Pass, s: Status)
    requires p.policy.Some?
  {
    Overdue(s.startTime, p.now, GlobalLimit(p)) || |InPhases(s.nodes, {NodeFailed})| >= Tolerated(p)
  }

  /** The uncordon gate withholds the return of a node that is drained. */
  ghost predicate HoldsBack(p: Pass, s: Status)
    requires p.policy.Some?
  {
    Withheld(p, GateUncordon) && !ForReplacement(p) && SomeIn(s.nodes, NodePostCheck)
  }

  ghost predicate SomeIn(ns: seq<NodeRec>, phase: NodePhase) {
    exists i :: 0 <= i < |ns| && ns[i].phase == phase
  }

  ghost predicate AllEnded(ns: seq<NodeRec>) {
    forall i | 0 <= i < |ns| :: ns[i].phase in {NodeCompleted, NodeBlocked, NodeFailed, NodeSkipped}
  }

  lemma {:induction false} SomeInIsCount(ns: seq<NodeRec>, phase: NodePhase)
    ensures CountIn(ns, {phase}) > 0 <==> SomeIn(ns, phase)
  {
    CountBounds(ns, {phase});
  }

  lemma StepErrs(c: StepContext, a: NodeAnswer, r: NodeRec, fl: int)
    requires !IsNodeTerminal(r.phase)
    ensures Step(c, a, r, fl).err ==> !IsNodeTerminal(Step(c, a, r, fl).rec.phase)
  {
  }

  /** The node at which a visit ends with an error is not done. */
  lemma {:induction false} ErrLeavesOpen(c: StepContext, answers: seq<NodeAnswer>, b: int, ns: seq<NodeRec>, fl: int, k: nat)
    requires k <= |ns| && StepTo(c, answers, b, ns, fl, k).err
    ensures !AllEnded(StepTo(c, answers, b, ns, fl, k).nodes)
  {
    if k > 0 {
      var q := StepTo(c, answers, b, ns, fl, k - 1);
      if q.err {
        ErrLeavesOpen(c, answers, b, ns, fl, k - 1);
      } else {
        StepErrs(c, AnswerAt(answers, k - 1), ns[k - 1], q.inFlight);
        assert !IsNodeTerminal(StepTo(c, answers, b, ns, fl, k).nodes[k - 1].phase);
      }
    }
  }

  lemma {:induction false} OpenIffCurrent(ns: seq<NodeRec>)
    requires NodesOk(ns)
    ensures CurrentBatch(ns) < 0 <==> AllEnded(ns)
  {
    CurrentBatchIsLeast(ns);
  }

  /** The batch is visited if and only if nothing stops the request or holds it back and some node is not done. */
  lemma VisitsIff(p: Pass, s: Status)
    requires StatusOk(s) && s.phase == PhaseExecuting && Proceeds(p, s)
    ensures RunsBatch(p, s) <==> !Stops(p, s) && !HoldsBack(p, s) && !AllEnded(s.nodes)
  {
    InPhasesIsCount(s.nodes, {NodeFailed});
    SomeInIsCount(s.nodes, NodePostCheck);
    HeldIff(p);
    OpenIffCurrent(s.nodes);
  }

  /** An executing request fails at once if and only if it is stopped, and awaits approval if and only if it is held back
    * instead. Otherwise it is over as soon as all nodes are done: failed if one of them has failed, else blocked if one is
    * blocked, else completed. As long as some are not done, it executes. */
  lemma ExecutingOutcome(p: Pass, s: Status)
    requires StatusOk(s) && s.phase == PhaseExecuting && Proceeds(p, s)
    ensures var o, ns := Reconcile(p, s), NodesAfter(p, s);
            var goesOn := !Stops(p, s) && !HoldsBack(p, s);
            && (o.mem.phase == PhaseFailed <==> Stops(p, s) || (goesOn && AllEnded(ns) && SomeIn(ns, NodeFailed)))
            && (o.mem.phase == PhaseAwaitingApproval <==> !Stops(p, s) && HoldsBack(p, s))
            && (o.mem.phase == PhaseBlocked <==> goesOn && AllEnded(ns) && !SomeIn(ns, NodeFailed) && SomeIn(ns, NodeBlocked))
            && (o.mem.phase == PhaseCompleted <==> goesOn && AllEnded(ns) && !SomeIn(ns, NodeFailed) && !SomeIn(ns, NodeBlocked))
            && (o.mem.phase == PhaseExecuting <==> goesOn && !AllEnded(ns))
            && (o.mem.phase == PhaseAwaitingApproval ==> o.mem.gate == Some(GateUncordon))
  {
    VisitsIff(p, s);
    PassKeepsStatus(p, s);
    PassNodes(p, s);
    if RunsBatch(p, s) {
      VisitEnds(p, s);
    } else {
      UnvisitedEnds(p, s);
    }
  }

  /** What becomes of a request whose records are ns. */
  ghost predicate EndsAs(phase: Phase, ns: seq<NodeRec>) {
    phase == (if !AllEnded(ns) then PhaseExecuting
              else if SomeIn(ns, NodeFailed) then PhaseFailed
              else if SomeIn(ns, NodeBlocked) then PhaseBlocked
              else PhaseCompleted)
  }

  lemma CompletionEnds(p: Pass, s: Status)
    requires AllEnded(s.nodes)
    ensures EndsAs(CompleteExecution(p, s).mem.phase, s.nodes)
  {
    SomeInIsCount(s.nodes, NodeFailed);
    SomeInIsCount(s.nodes, NodeBlocked);
  }

  lemma ConclusionEnds(p: Pass, s: Status, err: bool)
    requires NodesOk(s.nodes) && s.phase == PhaseExecuting && (err ==> !AllEnded(s.nodes))
    ensures EndsAs(Conclude(p, s, err).mem.phase, s.nodes)
  {
    OpenIffCurrent(s.nodes);
    if AllEnded(s.nodes) {
      CompletionEnds(p, s);
    }
  }

  lemma VisitEnds(p: Pass, s: Status)
    requires StatusOk(s) && RunsBatch(p, s) && NodesOk(NodesAfter(p, s))
    ensures EndsAs(Reconcile(p, s).mem.phase, NodesAfter(p, s))
  {
    var o := RunBatch(p, PolicyOf(p), s);
    if o.err {
      ErrLeavesOpen(ContextOf(p, PolicyOf(p)), p.answers, CurrentBatch(s.nodes), s.nodes, CountIn(s.nodes, IN_FLIGHT), |s.nodes|);
    }
    ConclusionEnds(p, s.(nodes := o.nodes), o.err);
  }

  lemma UnvisitedEnds(p: Pass, s: Status)
    requires StatusOk(s) && s.phase == PhaseExecuting && Proceeds(p, s) && !RunsBatch(p, s)
    ensures var o := Reconcile(p, s);
            if Stops(p, s) then o.mem.phase == PhaseFailed
            else if HoldsBack(p, s) then o.mem.phase == PhaseAwaitingApproval && o.mem.gate == Some(GateUncordon)
            else EndsAs(o.mem.phase, s.nodes)
  {
    InPhasesIsCount(s.nodes, {NodeFailed});
    SomeInIsCount(s.nodes, NodePostCheck);
    HeldIff(p);
    OpenIffCurrent(s.nodes);
    ExecutingUnvisited(p, PolicyOf(p), s);
    if AllEnded(s.nodes) {
      CompletionEnds(p, s);
    }
  }

  lemma ExecutingUnvisited(p: Pass, pol: PolicySpec, s: Status)
    requires s.plan.Some?
    ensures var m := Executing(p, pol, s).mem;
            if GlobalTimedOut(p, s) || CountIn(s.nodes, {NodeFailed}) >= Threshold(pol) then m.phase == PhaseFailed
            else if UncordonHeld(p, pol) && CountIn(s.nodes, {NodePostCheck}) > 0 then
              m.phase == PhaseAwaitingApproval && m.gate == Some(GateUncordon)
            else CurrentBatch(s.nodes) < 0 ==> m == CompleteExecution(p, s).mem
  {
  }

  // ----- blocked and paused -----

  /** The record put back by a retry has its whole drain before it. */
  ghost predicate PutBack(was: NodeRec, r: NodeRec, now: int) {
    r == if was.phase == NodeBlocked then was.(phase := NodeDraining, blockReason := NoReason, startTime := Some(now), endTime := None) else was
  }

  /** A blocked request fails if and only if it is out of time; otherwise it is validated again if it has no records, and else
    * executes, its blocked nodes put back to draining with a fresh start and nothing else changed. */
  lemma BlockedOutcome(p: Pass, s: Status)
    requires StatusOk(s) && s.phase == PhaseBlocked && Proceeds(p, s)
    ensures var o, late := Reconcile(p, s), Overdue(s.startTime, p.now, GlobalLimit(p));
            && (o.mem.phase == PhaseFailed <==> late)
            && (o.mem.phase == PhaseValidating <==> !late && s.nodes == [])
            && (o.mem.phase == PhaseExecuting <==> !late && s.nodes != [])
            && (o.mem.phase == PhaseExecuting ==>
                  |o.mem.nodes| == |s.nodes| && forall i | 0 <= i < |s.nodes| :: PutBack(s.nodes[i], o.mem.nodes[i], p.now))
            && (o.mem.phase != PhaseExecuting ==> o.mem.nodes == s.nodes)
  {
  }

  /** So no pass blocks such a node again before its drain timeout has gone by since the retry. */
  lemma RetryGivesTime(p: Pass, s: Status, q: Pass, i: nat)
    requires StatusOk(s) && s.phase == PhaseBlocked && Proceeds(p, s) && i < |s.nodes| && s.nodes[i].phase == NodeBlocked
    requires var s' := Reconcile(p, s).mem; s'.phase == PhaseExecuting && Reached(q, s', i)
    requires q.now <= p.now + DrainLimit(q)
    ensures |NodesAfter(q, Reconcile(p, s).mem)| == |s.nodes| && NodesAfter(q, Reconcile(p, s).mem)[i].phase != NodeBlocked
  {
    var s' := Reconcile(p, s).mem;
    PassKeepsStatus(p, s);
    BlockedOutcome(p, s);
    assert PutBack(s.nodes[i], s'.nodes[i], p.now);
    DrainingOutcome(q, s', i);
  }

  /** A paused request stays paused while it is to, and else goes back to the gate it waited at, to its records, to its plan
    * or to validation. */
  lemma PausedOutcome(p: Pass, s: Status)
    requires StatusOk(s) && s.phase == PhasePaused && Proceeds(p, s)
    ensures var o := Reconcile(p, s);
            o.mem == s.(phase := if p.spec.pause then PhasePaused
                                 else if s.gate.Some? then PhaseAwaitingApproval
                                 else if s.nodes != [] then PhaseExecuting
                                 else if s.plan.Some? then PhasePlanned
                                 else PhaseValidating)
  {
  }

  // ----- the end -----

  /** Only finished requests have a completion time. */
  ghost predicate Timed(s: Status) {
    IsTerminal(s.phase) <==> s.completionTime.Some?
  }

  /** A pass that ends the request notes its own time. */
  ghost predicate NotesEnd(p: Pass, s: Status, o: Out) {
    if IsTerminal(o.mem.phase) then o.mem.completionTime == Some(p.now) else o.mem.completionTime == s.completionTime
  }

  lemma ExecutingNotesEnd(p: Pass, pol: PolicySpec, s: Status)
    requires s.phase == PhaseExecuting && s.completionTime.None?
    ensures NotesEnd(p, s, Executing(p, pol, s))
  {
  }

  lemma DispatchNotesEnd(p: Pass, pol: PolicySpec, s: Status)
    requires !IsTerminal(s.phase) && s.completionTime.None?
    ensures NotesEnd(p, s, Dispatch(p, pol, s))
  {
    if s.phase == PhaseExecuting {
      ExecutingNotesEnd(p, pol, s);
    }
  }

  lemma PassNotesEnd(p: Pass, s: Status)
    requires !IsTerminal(s.phase) && s.completionTime.None?
    ensures NotesEnd(p, s, Reconcile(p, s))
  {
    if Proceeds(p, s) {
      DispatchNotesEnd(p, PolicyOf(p), s);
    }
  }

  /** On every run a request has a completion time exactly once it is over, and it is the time of a pass. */
  lemma {:induction false} CompletionTime(ps: seq<Pass>)
    ensures Timed(Run(ps).status)
    ensures IsTerminal(Run(ps).status.phase) ==> exists i :: 0 <= i < |ps| && Run(ps).status.completionTime == Some(ps[i].now)
  {
    if ps != [] {
      var n := |ps| - 1;
      CompletionTime(ps[..n]);
      if IsTerminal(Run(ps[..n]).status.phase) {
        Lifecycle.IdleNext(Run(ps[..n]), ps[n]);
        var i :| 0 <= i < n && Run(ps[..n]).status.completionTime == Some(ps[..n][i].now);
        assert Run(ps).status.completionTime == Some(ps[i].now);
      } else {
        PassNotesEnd(ps[n], Run(ps[..n]).status);
        assert IsTerminal(Run(ps).status.phase) ==> Run(ps).status.completionTime == Some(ps[n].now);
      }
    }
  }
}
