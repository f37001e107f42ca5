/** Runs from scratch on which the obvious claims fail: a request for one node, passes in the order of the clock. */
module Exceptions {
  import opened Api
  import opened NodeMachine
  import opened Passes
  import opened Invariant
  import opened PassFacts
  import opened StateMachine
  import opened Cordons
  import opened Solo
  import Evictions
  import Approval
  import Gates

  /** The passes lead to the world, in the order of the clock, the last not after now. */
  ghost predicate Leads(ps: seq<Pass>, w: World, now: int) {
    && Run(ps) == w
    && (forall i, j | 0 <= i < j < |ps| :: ps[i].now <= ps[j].now)
    && (forall i | 0 <= i < |ps| :: ps[i].now <= now)
  }

  lemma LeadsOn(ps: seq<Pass>, w: World, now: int, p: Pass)
    requires Leads(ps, w, now) && now <= p.now
    ensures Leads(ps + [p], Next(w, p), p.now)
  {
    assert (ps + [p])[..|ps|] == ps;
  }

  /** All passes read the same spec and target, and store their status. */
  ghost predicate Uniform(ps: seq<Pass>, spec: RequestSpec) {
    forall i | 0 <= i < |ps| :: ps[i].spec == spec && ps[i].target == Some(TARGET) && ps[i].policy == Some(POLICY) && ps[i].writeOk
  }

  lemma CordonsNode(spec: RequestSpec, evict: EvictResult, w: World)
    requires Plain(spec) && Working(w.status, NodeCordoning, 0)
    ensures Working(Next(w, At(spec, 0, 0, evict)).status, NodeDraining, 0)
    ensures NODE.name in Next(w, At(spec, 0, 0, evict)).cordoned
  {
    var p := At(spec, 0, 0, evict);
    RunsIt(p, w.status, 0);
    VisitCordons(spec, evict, w.status);
    NextVisited(w, p);
    EffectsOne(w.cordoned, CordonCall(NODE.name, true));
  }

  lemma VisitCordons(spec: RequestSpec, evict: EvictResult, s: Status)
    requires Working(s, NodeCordoning, 0)
    ensures var v := Visit(At(spec, 0, 0, evict), s);
            !v.err && v.events == [CordonCall(NODE.name, true)] && v.rec == s.nodes[0].(phase := NodeDraining)
  {
  }

  /** Three passes to execution, and two more to a node that drains. */
  lemma ToDraining(spec: RequestSpec, evict: EvictResult) returns (ps: seq<Pass>, w: World)
    requires Plain(spec)
    ensures Leads(ps, w, 0) && Uniform(ps, spec)
    ensures Working(w.status, NodeDraining, 0) && NODE.name in w.cordoned
  {
    ps, w := ToCordoning(spec, evict);
    CordonsNode(spec, evict, w);
    LeadsOn(ps, w, 0, At(spec, 0, 0, evict));
    ps, w := ps + [At(spec, 0, 0, evict)], Next(w, At(spec, 0, 0, evict));
  }

  lemma ToPending(spec: RequestSpec, evict: EvictResult) returns (ps: seq<Pass>, w: World)
    requires Plain(spec)
    ensures Leads(ps, w, 0) && Uniform(ps, spec) && Working(w.status, NodePending, 0)
  {
    var p := At(spec, 0, 0, evict);
    Begins(spec, 0, 0, evict);
    var w1 := Next(START, p);
    var w2 := Next(w1, p);
    w := Next(w2, p);
    ps := Thrice(p, w1, w2, w);
  }

  lemma Thrice(p: Pass, w1: World, w2: World, w3: World) returns (ps: seq<Pass>)
    requires w1 == Next(START, p) && w2 == Next(w1, p) && w3 == Next(w2, p)
    ensures ps == [p, p, p] && Leads(ps, w3, p.now)
  {
    assert [] + [p] == [p] && [p] + [p] == [p, p] && [p, p] + [p] == [p, p, p];
    assert Leads([], START, p.now);
    LeadsOn([], START, p.now, p);
    LeadsOn([p], w1, p.now, p);
    LeadsOn([p, p], w2, p.now, p);
    ps := [p, p, p];
  }

  lemma ToCordoning(spec: RequestSpec, evict: EvictResult) returns (ps: seq<Pass>, w: World)
    requires Plain(spec)
    ensures Leads(ps, w, 0) && Uniform(ps, spec) && Working(w.status, NodeCordoning, 0)
  {
    ps, w := ToPending(spec, evict);
    var p := At(spec, 0, 0, evict);
    NodeStarts(spec, 0, evict, w.status);
    LeadsOn(ps, w, 0, p);
    ps, w := ps + [p], Next(w, p);
  }

  lemma DrainsNode(spec: RequestSpec, w: World)
    requires Plain(spec) && Working(w.status, NodeDraining, 0)
    ensures Working(Next(w, At(spec, 0, 0, EMPTY)).status, NodePostCheck, 0)
    ensures Next(w, At(spec, 0, 0, EMPTY)).cordoned == w.cordoned
  {
    var p := At(spec, 0, 0, EMPTY);
    RunsIt(p, w.status, 0);
    VisitDrains(spec, w.status);
    NextVisited(w, p);
    EffectsOne(w.cordoned, EvictRound(NODE.name, Some(0)));
  }

  lemma VisitDrains(spec: RequestSpec, s: Status)
    requires Plain(spec) && Working(s, NodeDraining, 0)
    ensures var v := Visit(At(spec, 0, 0, EMPTY), s);
            && !v.err && v.events == [EvictRound(NODE.name, Some(0))]
            && v.rec.phase == NodePostCheck && v.rec.node == NODE.name && v.rec.startTime == Some(0)
  {
  }

  /** The node is drained and waits. */
  lemma ToPostCheck(spec: RequestSpec) returns (ps: seq<Pass>, w: World)
    requires Plain(spec)
    ensures Leads(ps, w, 0) && Uniform(ps, spec)
    ensures Working(w.status, NodePostCheck, 0) && NODE.name in w.cordoned
  {
    ps, w := ToDraining(spec, EMPTY);
    DrainsNode(spec, w);
    LeadsOn(ps, w, 0, At(spec, 0, 0, EMPTY));
    ps, w := ps + [At(spec, 0, 0, EMPTY)], Next(w, At(spec, 0, 0, EMPTY));
  }

  // ----- the uncordon gate -----

  const GATED := RequestSpec(ModeExecute, StrategySerial, 1, 1, 0, 0, true, ApprovalManualBeforeUncordon, [], false, false, None)
  const REJECTED := GATED.(gates := [GateDecision(GateUncordon, DecisionRejected, Some(0))])
  const CANCELLED := GATED.(cancel := true)

  lemma ToGate() returns (ps: seq<Pass>, w: World)
    ensures Leads(ps, w, 0) && Uniform(ps, GATED)
    ensures StatusOk(w.status) && w.status.phase == PhaseAwaitingApproval && w.status.gate == Some(GateUncordon)
    ensures |w.status.nodes| == 1 && w.status.nodes[0].phase == NodePostCheck && w.status.nodes[0].node == NODE.name
    ensures NODE.name in w.cordoned && Working(w.status.(gate := None, phase := PhaseExecuting), NodePostCheck, 0)
  {
    ps, w := ToPostCheck(GATED);
    var p := At(GATED, 0, 0, EMPTY);
    NowHeld(p, w);
    LeadsOn(ps, w, 0, p);
    ps, w := ps + [p], Next(w, p);
  }

  lemma NowHeld(p: Pass, w: World)
    requires p == At(GATED, 0, 0, EMPTY) && Working(w.status, NodePostCheck, 0)
    ensures var w' := Next(w, p);
            && StatusOk(w'.status) && w'.cordoned == w.cordoned
            && w'.status.phase == PhaseAwaitingApproval && w'.status.gate == Some(GateUncordon)
            && w'.status.nodes == w.status.nodes && w'.status.(gate := None, phase := PhaseExecuting) == w.status
  {
    assert w.status.gate == None;
    Holds(p, w.status);
    PassKeepsStatus(p, w.status);
    EffectsOne(w.cordoned, Judged(GateUncordon, Undecided));
  }

  lemma Holds(p: Pass, s: Status)
    requires p == At(GATED, 0, 0, EMPTY) && Working(s, NodePostCheck, 0)
    ensures Reconcile(p, s) == Out(s.(gate := Some(GateUncordon), phase := PhaseAwaitingApproval), true,
                                   [Judged(GateUncordon, Undecided)], [PhaseAwaitingApproval], false)
  {
    CountOne(s.nodes, {NodeFailed});
    CountOne(s.nodes, {NodePostCheck});
    assert VerdictAt(p, PolicyOf(p), GateUncordon) == Undecided;
    assert Advance(p, PolicyOf(p), s)
        == Out(s.(gate := Some(GateUncordon), phase := PhaseAwaitingApproval), true, [], [PhaseAwaitingApproval], false);
  }

  lemma Rejects(p: Pass, s: Status)
    requires p == At(REJECTED, 0, 0, EMPTY) && s.phase == PhaseAwaitingApproval && s.gate == Some(GateUncordon)
    ensures Proceeds(p, s) && VerdictAt(p, PolicyOf(p), PendingGate(s)) == Rejected
  {
    var gates := p.spec.gates;
    assert Approval.Latest(gates, GateUncordon, 0) == None;
    assert Approval.Latest(gates, GateUncordon, 1) == Some(0);
  }

  lemma {:induction false} AllStored(ps: seq<Pass>)
    requires forall i | 0 <= i < |ps| :: ps[i].writeOk
    ensures Evictions.NoLostAbort(ps)
  {
    if ps != [] {
      AllStored(ps[..|ps| - 1]);
    }
  }

  lemma Unaborted(ps: seq<Pass>, w: World, spec: RequestSpec)
    requires Leads(ps, w, 0) && Uniform(ps, spec) && !IsTerminal(w.status.phase)
    ensures Evictions.AbortFree(w.trace)
  {
    AllStored(ps);
    Evictions.StoredAbortsLast(ps);
  }

  /** A request that returns its nodes ends rejected at the uncordon gate with every call answered, and leaves its node
    * cordoned. */
  lemma RejectionStrands() returns (ps: seq<Pass>)
    ensures Leads(ps, Run(ps), 0) && (forall i | 0 <= i < |ps| :: Releases(ps[i].spec)) && NoFailedRelease(Run(ps).trace)
    ensures Run(ps).status.ending == RejectedAtGate(GateUncordon) && NODE.name in Run(ps).cordoned
  {
    var w, p := START, At(REJECTED, 0, 0, EMPTY);
    ps, w := ToGate();
    Unaborted(ps, w, GATED);
    Rejects(p, w.status);
    Gates.RejectionEnds(w, p, []);
    LeadsOn(ps, w, 0, p);
    var more := ps + [p];
    assert Run(more) == Next(w, p);
    assert forall i | 0 <= i < |more| :: Releases(more[i].spec);
    ps := more;
  }

  lemma Cancels(w: World, p: Pass)
    requires p == At(CANCELLED, 0, 0, EMPTY) && w.status.phase == PhaseAwaitingApproval
    requires |w.status.nodes| == 1 && w.status.nodes[0].phase == NodePostCheck && w.status.nodes[0].node == NODE.name
    ensures Next(w, p).trace == w.trace + [UncordonCall(NODE.name, true, true)]
  {
    assert ReleaseTo(p, w.status.nodes, 0) == [];
    assert ReleaseTo(p, w.status.nodes, 1) == [UncordonCall(NODE.name, true, true)];
    assert Reconcile(p, w.status).events == ReleaseTo(p, w.status.nodes, 1);
  }

  lemma StillGated(ps: seq<Pass>, p: Pass)
    requires Uniform(ps, GATED) && p == At(CANCELLED, 0, 0, EMPTY)
    ensures Gates.AlwaysGated(ps + [p])
    ensures forall i | 0 <= i < |ps| && ps[i].policy.Some? :: VerdictAt(ps[i], PolicyOf(ps[i]), GateUncordon) == Undecided
  {
  }

  /** A user cancels while the gate is undecided: the node is uncordoned, and no evaluation has ever approved that. */
  lemma CancelBypassesGate() returns (ps: seq<Pass>)
    ensures Leads(ps, Run(ps), 0) && Gates.AlwaysGated(ps)
    ensures UncordonCall(NODE.name, true, true) in Run(ps).trace && Judged(GateUncordon, Approved) !in Run(ps).trace
  {
    var p := At(CANCELLED, 0, 0, EMPTY);
    var before, w := ToGate();
    StillGated(before, p);
    Gates.NeverJudged(before, GateUncordon, Approved);
    Cancels(w, p);
    LeadsOn(before, w, 0, p);
    ps := before + [p];
    assert Run(ps).trace == w.trace + [UncordonCall(NODE.name, true, true)];
  }

  // ----- a decision that comes too late -----

  const APPROVED := GATED.(gates := [GateDecision(GateUncordon, DecisionApproved, Some(0))])
  const REVOKED := GATED.(gates := [GateDecision(GateUncordon, DecisionApproved, Some(0)),
                                    GateDecision(GateUncordon, DecisionRejected, Some(1))])

  lemma Verdicts()
    ensures Approval.Evaluate(ApprovalManualBeforeUncordon, APPROVED.gates, GateUncordon) == Approved
    ensures Approval.Evaluate(ApprovalManualBeforeUncordon, REVOKED.gates, GateUncordon) == Rejected
  {
    assert Approval.InForce(APPROVED.gates, GateUncordon, 0);
    Approval.InForceIsLatest(APPROVED.gates, GateUncordon, 0);
    assert Approval.InForce(REVOKED.gates, GateUncordon, 1);
    Approval.InForceIsLatest(REVOKED.gates, GateUncordon, 1);
  }

  lemma Approves(w: World, p: Pass)
    requires p == At(APPROVED, 0, 0, EMPTY) && w.status.phase == PhaseAwaitingApproval && w.status.gate == Some(GateUncordon)
    ensures Next(w, p).status == w.status.(gate := None, phase := PhaseExecuting)
  {
    Verdicts();
    assert VerdictAt(p, PolicyOf(p), GateUncordon) == Approved;
    assert Reconcile(p, w.status) == Settle(p, w.status, GateUncordon, Approved);
  }

  lemma TurnsToUncordon(w: World, p: Pass)
    requires p == At(APPROVED, 0, 0, EMPTY) && Working(w.status, NodePostCheck, 0)
    ensures Working(Next(w, p).status, NodeUncordoning, 0)
  {
    Verdicts();
    assert VerdictAt(p, PolicyOf(p), GateUncordon) == Approved;
    RunsIt(p, w.status, 0);
    Visited(p, w.status);
  }

  lemma UncordonsAnyway(w: World, p: Pass)
    requires p == At(REVOKED, 1, 0, EMPTY) && Working(w.status, NodeUncordoning, 0)
    ensures Next(w, p).trace == w.trace + [Judged(GateUncordon, Rejected), UncordonCall(NODE.name, true, false)]
  {
    Verdicts();
    assert VerdictAt(p, PolicyOf(p), GateUncordon) == Rejected;
    RunsIt(p, w.status, 0);
    VisitEvents(p, w.status);
  }

  /** What a visit on the way to a completed node notes and calls. */
  lemma VisitEvents(p: Pass, s: Status)
    requires p == At(REVOKED, 1, 0, EMPTY) && Working(s, NodeUncordoning, 0) && RunsBatch(p, s)
    requires VerdictAt(p, PolicyOf(p), GateUncordon) == Rejected
    ensures Reconcile(p, s).events == [Judged(GateUncordon, Rejected), UncordonCall(NODE.name, true, false)]
  {
    VisitOne(p, s);
    VisitIs(p, s);
    CompletedAfter(p, s, RunBatch(p, PolicyOf(p), s));
    PassCalls(p, s);
    CountOne(s.nodes, {NodeFailed});
    assert Judgement(p, s) == [Judged(GateUncordon, Rejected)];
  }

  lemma CompletedAfter(p: Pass, s: Status, o: LoopOut)
    requires |o.nodes| == 1 && o.nodes[0].batch >= 0 && o.nodes[0].phase == NodeCompleted && !o.err
    ensures AfterBatch(p, s, o).mem.ending == Finished
  {
    CountOne(o.nodes, {NodeFailed});
    CountOne(o.nodes, {NodeBlocked});
    BatchOne(o.nodes);
  }

  /** The gate is approved, a pass later it is rejected, and the next pass notes the rejection and uncordons the node. */
  lemma RevokedStillUncordons() returns (ps: seq<Pass>)
    ensures Leads(ps, Run(ps), 1) && Gates.AlwaysGated(ps)
    ensures var tr := Run(ps).trace;
            |tr| >= 2 && tr[|tr| - 2] == Judged(GateUncordon, Rejected) && tr[|tr| - 1] == UncordonCall(NODE.name, true, false)
  {
    var p, q := At(APPROVED, 0, 0, EMPTY), At(REVOKED, 1, 0, EMPTY);
    var before, w := ToGate();
    Approves(w, p);
    var w1 := Next(w, p);
    TurnsToUncordon(w1, p);
    var w2 := Next(w1, p);
    UncordonsAnyway(w2, q);
    LeadsOn(before, w, 0, p);
    LeadsOn(before + [p], w1, 0, p);
    LeadsOn(before + [p] + [p], w2, 0, q);
    ps := before + [p] + [p] + [q];
    AllGated(before, p, q);
  }

  lemma AllGated(ps: seq<Pass>, p: Pass, q: Pass)
    requires Uniform(ps, GATED) && p == At(APPROVED, 0, 0, EMPTY) && q == At(REVOKED, 1, 0, EMPTY)
    ensures Gates.AlwaysGated(ps + [p] + [p] + [q])
  {
  }

  // ----- replacement -----

  const REPLACES := RequestSpec(ModeExecute, StrategySerial, 1, 1, 0, 0, true, ApprovalAuto, [], false, false,
                                Some(UpgradeSpec(UpgradeReplaceNode, "", 0)))

  lemma VisitTurns(s: Status)
    requires Working(s, NodePostCheck, 0)
    ensures var v := Visit(At(REPLACES, 0, 0, EMPTY), s); !v.err && v.events == [] && v.rec == s.nodes[0].(phase := NodeReplacing)
  {
  }

  lemma TurnsToReplacement(w: World, p: Pass)
    requires p == At(REPLACES, 0, 0, EMPTY) && Working(w.status, NodePostCheck, 0)
    ensures Working(Next(w, p).status, NodeReplacing, 0) && Next(w, p).cordoned == w.cordoned
  {
    RunsIt(p, w.status, 0);
    VisitTurns(w.status);
    NextVisited(w, p);
  }

  lemma VisitFails(s: Status)
    requires Working(s, NodeReplacing, 0)
    ensures var v := Visit(At(REPLACES, 0, 0, EMPTY), s);
            !v.err && v.events == [ReplaceCall(NODE.name, NoMachine)] && v.rec.phase == NodeFailed
  {
  }

  lemma ReplacementFails(w: World, p: Pass)
    requires p == At(REPLACES, 0, 0, EMPTY) && Working(w.status, NodeReplacing, 0)
    ensures Next(w, p).status.phase == PhaseFailed && Next(w, p).cordoned == w.cordoned
  {
    RunsIt(p, w.status, 0);
    VisitFails(w.status);
    NextVisited(w, p);
    EffectsOne(w.cordoned, ReplaceCall(NODE.name, NoMachine));
  }

  /** A node without a Machine fails its replacement, the request fails, and the node stays cordoned. */
  lemma FailedReplacementStrands() returns (ps: seq<Pass>)
    ensures Leads(ps, Run(ps), 0) && Uniform(ps, REPLACES)
    ensures Run(ps).status.phase == PhaseFailed && NODE.name in Run(ps).cordoned
  {
    var p := At(REPLACES, 0, 0, EMPTY);
    var before, w := ToPostCheck(REPLACES);
    TurnsToReplacement(w, p);
    var w' := Next(w, p);
    ReplacementFails(w', p);
    LeadsOn(before, w, 0, p);
    LeadsOn(before + [p], w', 0, p);
    ps := before + [p] + [p];
  }

  // ----- modes -----

  const ADVISORY := RequestSpec(ModeAdvisory, StrategySerial, 1, 1, 0, 0, true, ApprovalAuto, [], false, false, None)
  const DRY_RUN := ADVISORY.(mode := ModeDryRun)

  /** An advisory request, edited to a dry run once it is planned, executes. */
  lemma EditedModeExecutes() returns (ps: seq<Pass>)
    ensures Leads(ps, Run(ps), 0) && (forall i | 0 <= i < |ps| :: ps[i].spec.mode in {ModeAdvisory, ModeDryRun})
    ensures Run(ps).status.phase == PhaseExecuting && |Run(ps).status.nodes| == 1
  {
    var p, q := At(ADVISORY, 0, 0, EMPTY), At(DRY_RUN, 0, 0, EMPTY);
    var w1 := Next(START, p);
    var w2 := Next(w1, p);
    StatusAlwaysOk([]);
    PassKeepsStatus(p, START.status);
    AdvisoryPlans(p);
    PassKeepsStatus(p, w1.status);
    Gates.StartsMutate(w2, q);
    LeadsOn([], START, 0, p);
    LeadsOn([] + [p], w1, 0, p);
    LeadsOn([] + [p] + [p], w2, 0, q);
    ps := [] + [p] + [p] + [q];
  }

  lemma AdvisoryPlans(p: Pass)
    requires p == At(ADVISORY, 0, 0, EMPTY)
    ensures var o := Reconcile(p, NEW_STATUS.(phase := PhasePending)); o.mem.phase == PhasePlanned && o.wrote
  {
  }

  // ----- the table of transitions -----

  /** A request stored as pending is stored as planned by its next pass. */
  lemma PendingIsPlanned() returns (ps: seq<Pass>, p: Pass)
    ensures Leads(ps + [p], Run(ps + [p]), 0)
    ensures Run(ps).status.phase == PhasePending && Run(ps + [p]).status.phase == PhasePlanned
  {
    p := At(GATED, 0, 0, EMPTY);
    Begins(GATED, 0, 0, EMPTY);
    LeadsOn([], START, 0, p);
    LeadsOn([] + [p], Next(START, p), 0, p);
    ps := [] + [p];
  }

  // ----- evictions after a lost abort -----

  const RETURNS := RequestSpec(ModeExecute, StrategySerial, 1, 1, 0, 0, true, ApprovalAuto, [], false, false, None)

  /** The policy cannot be read, and the status of the abort that follows is lost. */
  function Lost(): Pass {
    At(RETURNS, 0, 0, STAYS).(policy := None, writeOk := false)
  }

  lemma LostUncordons(w: World)
    requires w.status.phase == PhaseExecuting && |w.status.nodes| == 1
    requires ShouldRelease(w.status.nodes[0].phase) && w.status.nodes[0].node == NODE.name
    ensures Next(w, Lost()) == World(w.status, w.trace + [UncordonCall(NODE.name, true, true)], w.cordoned - {NODE.name})
  {
    var p := Lost();
    assert ReleaseTo(p, w.status.nodes, 0) == [];
    assert ReleaseTo(p, w.status.nodes, 1) == [UncordonCall(NODE.name, true, true)];
    assert Reconcile(p, w.status).events == [UncordonCall(NODE.name, true, true)];
    EffectsOne(w.cordoned, UncordonCall(NODE.name, true, true));
  }

  lemma OneTarget(ps: seq<Pass>, spec: RequestSpec)
    requires Uniform(ps, spec)
    ensures Evictions.DistinctTargets(ps)
  {
  }

  /** One pass aborts and loses its status; the next evicts from the node, which is schedulable. */
  lemma EvictsUncordoned() returns (ps: seq<Pass>, k: nat)
    ensures Leads(ps, Run(ps), 0) && Evictions.DistinctTargets(ps)
    ensures k < |Run(ps).trace| && Run(ps).trace[k].EvictRound? && Run(ps).trace[k].node == NODE.name
    ensures NODE.name !in Evictions.MustBe(Run(ps).trace[..k]) && NODE.name !in Run(ps).cordoned
  {
    var p, q := Lost(), At(RETURNS, 0, 0, STAYS);
    var before, w := ToDraining(RETURNS, STAYS);
    OneTarget(before, RETURNS);
    RunsIt(q, w.status, 0);
    LostUncordons(w);
    var w' := Next(w, p);
    k := Evictions.LostAbortExposes(before, p, q, 0);
    Evicts(w', q);
    LeadsOn(before, w, 0, p);
    LeadsOn(before + [p], w', 0, q);
    ps := before + [p] + [q];
  }

  lemma VisitEvicts(s: Status)
    requires Working(s, NodeDraining, 0)
    ensures var v := Visit(At(RETURNS, 0, 0, STAYS), s);
            !v.err && v.events == [EvictRound(NODE.name, Some(1))] && v.rec.phase == NodeDraining
  {
  }

  /** A visit of the draining node evicts from it and leaves it draining. */
  lemma Evicts(w: World, q: Pass)
    requires q == At(RETURNS, 0, 0, STAYS) && Working(w.status, NodeDraining, 0)
    ensures Next(w, q).cordoned == w.cordoned
    ensures Next(w, q).trace == w.trace + (Judgement(q, w.status) + [EvictRound(NODE.name, Some(1))])
  {
    RunsIt(q, w.status, 0);
    VisitEvicts(w.status);
    NextVisited(w, q);
    EffectsOne(w.cordoned, EvictRound(NODE.name, Some(1)));
  }

  lemma CordonsAgain(w: World, q: Pass)
    requires q == At(RETURNS, 0, 0, STAYS) && Working(w.status, NodeCordoning, 0)
    ensures Working(Next(w, q).status, NodeDraining, 0)
    ensures Next(w, q).trace == w.trace + (Judgement(q, w.status) + [CordonCall(NODE.name, true)])
  {
    RunsIt(q, w.status, 0);
    VisitCordons(RETURNS, STAYS, w.status);
    NextVisited(w, q);
  }

  /** An abort loses its status while the node is being cordoned, and the next pass cordons it again. */
  lemma ToCordonedAgain() returns (ps: seq<Pass>, w: World, tr: seq<Event>, noted: seq<Event>)
    ensures Leads(ps, w, 0) && Working(w.status, NodeDraining, 0)
    ensures w.trace == tr + [UncordonCall(NODE.name, true, true)] + (noted + [CordonCall(NODE.name, true)])
  {
    var p, q := Lost(), At(RETURNS, 0, 0, STAYS);
    var before, w0 := ToCordoning(RETURNS, STAYS);
    LostUncordons(w0);
    var w1 := Next(w0, p);
    CordonsAgain(w1, q);
    ps, w, tr, noted := before + [p] + [q], Next(w1, q), w0.trace, Judgement(q, w1.status);
    LeadsOn(before, w0, 0, p);
    LeadsOn(before + [p], w1, 0, q);
  }

  /** An eviction may follow an abort uncordon of its node and still be on a cordoned node: an abort that loses its status
    * while the node is being cordoned is made up for by the next pass. */
  lemma EvictsCordonedAgain() returns (ps: seq<Pass>, j: nat, k: nat)
    ensures Leads(ps, Run(ps), 0) && j < k < |Run(ps).trace|
    ensures Evictions.AbortUncordons(Run(ps).trace[j], NODE.name) && Run(ps).trace[k] == EvictRound(NODE.name, Some(1))
    ensures NODE.name in Evictions.MustBe(Run(ps).trace[..k])
  {
    var before, w, tr, noted := ToCordonedAgain();
    var tr3: seq<Event>;
    ps, tr3, k := EvictsNext(before, w);
    j := |tr|;
    Again(tr, noted, w.trace, tr3, k);
  }

  lemma EvictsNext(before: seq<Pass>, w: World) returns (ps: seq<Pass>, tr: seq<Event>, k: nat)
    requires Leads(before, w, 0) && Working(w.status, NodeDraining, 0)
    ensures Leads(ps, Run(ps), 0) && tr == Run(ps).trace && EvictedAt(w.trace, tr, k)
  {
    var q := At(RETURNS, 0, 0, STAYS);
    Evicts(w, q);
    LeadsOn(before, w, 0, q);
    ps, tr, k := before + [q], Next(w, q).trace, |w.trace| + |Judgement(q, w.status)|;
    AllJudged(q, w.status);
  }

  /** After the calls so far come only judgements, and then the eviction at k. */
  ghost predicate EvictedAt(before: seq<Event>, tr: seq<Event>, k: nat) {
    && |before| <= k && |tr| == k + 1 && tr[..|before|] == before && tr[k] == EvictRound(NODE.name, Some(1))
    && forall i | |before| <= i < k :: tr[i].Judged?
  }

  lemma AllJudged(p: Pass, s: Status)
    ensures forall e | e in Judgement(p, s) :: e.Judged?
  {
  }

  /** The calls of the run, from the abort on. */
  lemma Again(tr: seq<Event>, noted: seq<Event>, tr2: seq<Event>, tr3: seq<Event>, k: nat)
    requires tr2 == tr + [UncordonCall(NODE.name, true, true)] + (noted + [CordonCall(NODE.name, true)]) && EvictedAt(tr2, tr3, k)
    ensures |tr| < k && Evictions.AbortUncordons(tr3[|tr|], NODE.name) && NODE.name in Evictions.MustBe(tr3[..k])
  {
    var m := |tr2| - 1;
    assert tr3[..|tr2|][|tr|] == tr3[|tr|] && tr3[..|tr2|][m] == tr3[m];
    Evictions.MustBeMeans(tr3[..k], NODE.name);
    assert Evictions.HeldSince(tr3[..k], NODE.name, m);
  }
}
