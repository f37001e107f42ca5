/** What must have been read before: on every run, no request goes on to its nodes that was not checked and approved, and no
  * node is cordoned that was not looked up and chosen. */
module Admission {
  import opened Api
  import opened NodeMachine
  import opened Passes
  import opened Invariant
  import opened PassFacts
  import opened NodeOutcomes
  import opened RequestOutcomes
  import Approval
  import Cordons
  import Gates
  import Journal
  import Lifecycle

  // ----- the checks -----

  /** Some pass over the request while it was pending or validating found nothing against it. */
  ghost predicate Admitted(ps: seq<Pass>) {
    exists i :: 0 <= i < |ps| && Admits(ps[i]) && Run(ps[..i]).status.phase in {PhasePending, PhaseValidating}
  }

  lemma AdmittedLater(ps: seq<Pass>, p: Pass)
    requires Admitted(ps)
    ensures Admitted(ps + [p])
  {
    var i :| 0 <= i < |ps| && Admits(ps[i]) && Run(ps[..i]).status.phase in {PhasePending, PhaseValidating};
    assert (ps + [p])[..i] == ps[..i] && (ps + [p])[i] == ps[i];
  }

  lemma ValidatingPlans(p: Pass, pol: PolicySpec, s: Status)
    requires s.plan.None? && Validating(p, pol, s).mem.plan.Some?
    ensures Checked(p) && !PreflightFails(p, pol, p.target.value) && !p.planError
  {
  }

  lemma OthersPlanNothing(p: Pass, pol: PolicySpec, s: Status)
    requires s.plan.None? && s.phase in {PhaseAwaitingApproval, PhaseBlocked, PhasePaused}
    ensures Dispatch(p, pol, s).mem.plan.None?
  {
  }

  /** The first plan of a request comes from a pass that found nothing against it. */
  lemma FirstPlan(p: Pass, s: Status)
    requires StatusOk(s) && s.plan.None? && Reconcile(p, s).mem.plan.Some?
    ensures Admits(p) && s.phase in {PhasePending, PhaseValidating}
  {
    if Proceeds(p, s) {
      if s.phase in {PhaseAwaitingApproval, PhaseBlocked, PhasePaused} {
        OthersPlanNothing(p, PolicyOf(p), s);
      }
      ValidatingPlans(p, PolicyOf(p), s);
      PreflightIs(p, p.target.value);
    }
  }

  lemma {:induction false} PlannedIsAdmitted(ps: seq<Pass>)
    requires Run(ps).status.plan.Some?
    ensures Admitted(ps)
  {
    if ps != [] {
      var n := |ps| - 1;
      assert ps == ps[..n] + [ps[n]];
      if Run(ps[..n]).status.plan.Some? {
        PlannedIsAdmitted(ps[..n]);
        AdmittedLater(ps[..n], ps[n]);
      } else {
        StatusAlwaysOk(ps[..n]);
        FirstPlan(ps[n], Run(ps[..n]).status);
      }
    }
  }

  /** A request is planned, waits at the drain gate, executes or has records only after a pass that read a target with
    * nothing missing, found no other check failed, and the unavailability within the limit. */
  lemma AdmittedFirst(ps: seq<Pass>)
    requires var s := Run(ps).status;
             s.phase in {PhasePlanned, PhaseExecuting} || (s.phase == PhaseAwaitingApproval && s.gate == Some(GateDrain)) || s.nodes != []
    ensures exists i :: 0 <= i < |ps| && Run(ps[..i]).status.phase in {PhasePending, PhaseValidating}
                        && ps[i].policy.Some? && ps[i].target.Some? && ps[i].target.value.missing == [] && ps[i].target.value.nodes != []
                        && !ps[i].otherFailures && !ps[i].preflightError && !OverLimit(ps[i], ps[i].target.value)
  {
    StatusAlwaysOk(ps);
    PlannedIsAdmitted(ps);
    var i :| 0 <= i < |ps| && Admits(ps[i]) && Run(ps[..i]).status.phase in {PhasePending, PhaseValidating};
  }

  /** A start reads its target anew and checks nothing of it again. */
  lemma StartChecksNothing(p: Pass, q: Pass, s: Status)
    requires s.phase == PhasePlanned && p.target.Some?
    requires q == p.(preflightError := q.preflightError, otherFailures := q.otherFailures, target := q.target)
    requires q.target.Some? && q.target.value.nodes == p.target.value.nodes
    ensures Reconcile(p, s) == Reconcile(q, s)
  {
    Gates.SameRelease(p, q, s.nodes, |s.nodes|);
    if Proceeds(p, s) {
      SameStart(p, q, PolicyOf(p), s);
    }
  }

  lemma SameStart(p: Pass, q: Pass, pol: PolicySpec, s: Status)
    requires p.target.Some? && q.target.Some? && q.target.value.nodes == p.target.value.nodes
    requires q == p.(preflightError := q.preflightError, otherFailures := q.otherFailures, target := q.target)
    ensures Planned(p, pol, s) == Planned(q, pol, s)
  {
    Gates.SameRelease(p, q, s.nodes, |s.nodes|);
  }

  // ----- the approvals -----

  /** Every pass that knows its policy finds that the gate is asked for. */
  ghost predicate AlwaysAsked(ps: seq<Pass>, gate: Gate) {
    forall i | 0 <= i < |ps| && ps[i].policy.Some? :: ApprovalIn(ps[i]) in Approval.Asking(gate)
  }

  /** Some pass has read decisions of which the one in force approves the gate. */
  ghost predicate ReadApproval(ps: seq<Pass>, gate: Gate) {
    exists i :: 0 <= i < |ps| && Approval.Decided(ps[i].spec.gates, gate, DecisionApproved)
  }

  lemma NotedIsRead(ps: seq<Pass>, gate: Gate)
    requires Judged(gate, Approved) in Run(ps).trace
    ensures ReadApproval(ps, gate)
  {
    if !ReadApproval(ps, gate) {
      forall i | 0 <= i < |ps| && ps[i].policy.Some? ensures VerdictAt(ps[i], PolicyOf(ps[i]), gate) != Approved {
        VerdictIn(ps[i], gate);
      }
      Gates.NeverJudged(ps, gate, Approved);
    }
  }

  lemma AskedIsRequired(ps: seq<Pass>, gate: Gate)
    requires AlwaysAsked(ps, gate)
    ensures Judged(gate, NotRequired) !in Run(ps).trace
  {
    forall i | 0 <= i < |ps| && ps[i].policy.Some? ensures VerdictAt(ps[i], PolicyOf(ps[i]), gate) != NotRequired {
      VerdictIn(ps[i], gate);
    }
    Gates.NeverJudged(ps, gate, NotRequired);
  }

  /** Where the approval policy - the request's own, or else the default - always asks for approval before the drain, a
    * request is planned, executes or has records only after an approval in force was read and noted. */
  lemma DrainNeedsApproval(ps: seq<Pass>)
    requires AlwaysAsked(ps, GateDrain)
    requires var s := Run(ps).status; s.phase in {PhasePlanned, PhaseExecuting} || s.nodes != []
    ensures Judged(GateDrain, Approved) in Run(ps).trace && ReadApproval(ps, GateDrain)
  {
    Journal.DrainGateNotBypassed(ps);
    AskedIsRequired(ps, GateDrain);
    NotedIsRead(ps, GateDrain);
  }

  // ----- the lookups -----

  /** The pass comes to a pending record of the node with room for it, and the lookup says that it is to be drained. */
  ghost predicate Chooses(p: Pass, s: Status, i: nat, n: string) {
    && Reached(p, s, i) && s.nodes[i].phase == NodePending && s.nodes[i].node == n
    && |NodesAfter(p, s)| == |s.nodes| && Room(p, s, i) && ToBeDrained(p, AnswerAt(p.answers, i).lookup)
  }

  /** Some pass of the run has chosen the node. */
  ghost predicate Chosen(ps: seq<Pass>, n: string) {
    ps != [] && (Chosen(ps[..|ps| - 1], n) || ChoosesSome(ps[|ps| - 1], Run(ps[..|ps| - 1]).status, n))
  }

  ghost predicate ChoosesSome(p: Pass, s: Status, n: string) {
    exists i: nat :: Chooses(p, s, i, n)
  }

  ghost predicate AllChosen(ps: seq<Pass>, ns: seq<NodeRec>) {
    forall i | 0 <= i < |ns| && ns[i].phase !in {NodePending, NodeSkipped} :: Chosen(ps, ns[i].node)
  }

  lemma {:induction false} ChosenLater(ps: seq<Pass>, p: Pass, n: string)
    requires Chosen(ps, n) || ChoosesSome(p, Run(ps).status, n)
    ensures Chosen(ps + [p], n)
  {
    assert (ps + [p])[..|ps|] == ps;
  }

  /** A record leaves Pending for a working phase only in a pass that chooses it. */
  lemma LeavesByChoice(p: Pass, s: Status, i: nat)
    requires StatusOk(s) && i < |s.nodes| == |NodesAfter(p, s)|
    requires NodesAfter(p, s)[i].phase !in {NodePending, NodeSkipped}
    ensures s.nodes[i].phase !in {NodePending, NodeSkipped} || Chooses(p, s, i, s.nodes[i].node)
  {
    if RunsBatch(p, s) && s.nodes[i].phase in {NodePending, NodeSkipped} {
      VisitLeavesAndEnds(p, s, i);
      PendingOutcome(p, s, i);
    }
  }

  lemma ChosenAfter(ps: seq<Pass>, p: Pass)
    requires AllChosen(ps, Run(ps).status.nodes)
    ensures AllChosen(ps + [p], NodesAfter(p, Run(ps).status)) && AllChosen(ps + [p], Run(ps).status.nodes)
  {
    var s := Run(ps).status;
    var ns := NodesAfter(p, s);
    StatusAlwaysOk(ps);
    forall i | 0 <= i < |s.nodes| && s.nodes[i].phase !in {NodePending, NodeSkipped} ensures Chosen(ps + [p], s.nodes[i].node) {
      ChosenLater(ps, p, s.nodes[i].node);
    }
    if s.nodes != [] {
      Lifecycle.ShapeKept(p, s);
      forall i | 0 <= i < |ns| && ns[i].phase !in {NodePending, NodeSkipped} ensures Chosen(ps + [p], ns[i].node) {
        LeavesByChoice(p, s, i);
        if Chooses(p, s, i, s.nodes[i].node) {
          ChosenLater(ps, p, s.nodes[i].node);
        }
      }
    } else if Starts(p, s) {
      Lifecycle.StartCoversTarget(p, s);
    }
  }

  lemma {:induction false} WorkingIsChosen(ps: seq<Pass>)
    ensures AllChosen(ps, Run(ps).status.nodes)
  {
    if ps != [] {
      var n := |ps| - 1;
      assert ps == ps[..n] + [ps[n]];
      WorkingIsChosen(ps[..n]);
      ChosenAfter(ps[..n], ps[n]);
      StatusAlwaysOk(ps[..n]);
      PassNodes(ps[n], Run(ps[..n]).status);
    }
  }

  /** A pass cordons a node only if an earlier pass chose it: its turn had come, the window was open and the caps left room,
    * and the lookup of that pass found the node, not managed by the Machine Config Operator and not at the version named. */
  lemma {:induction false} CordonedWasChosen(ps: seq<Pass>, q: Pass, n: string, ok: bool)
    requires CordonCall(n, ok) in Reconcile(q, Run(ps).status).events
    ensures Chosen(ps, n)
  {
    StatusAlwaysOk(ps);
    WorkingIsChosen(ps);
    Cordons.CallsAreWrittenAhead(q, Run(ps).status);
    assert Cordons.InPhase(Run(ps).status.nodes, n, NodeCordoning);
  }
}
