/** What a visit makes of a node, phase by phase: when exactly the node moves, where to, and with which call, in terms of
  * what the pass reads. */
module NodeOutcomes {
  import opened Api
  import opened NodeMachine
  import opened Passes
  import opened Invariant
  import opened PassFacts
  import Approval
  import Caps
  import Evictions
  import Policy

  // ----- the terms as a pass reads them -----

  /** The time since has gone by for longer than the limit. */
  ghost predicate Overdue(since: Option<int>, now: int, limit: int) {
    since.Some? && now > since.value + limit
  }

  /** The request's own drain timeout, or else the configured one. */
  ghost function DrainLimit(p: Pass): int {
    if p.spec.drainTimeout > 0 then p.spec.drainTimeout else p.config.drainTimeout
  }

  /** The same for the whole request. */
  ghost function GlobalLimit(p: Pass): int {
    if p.spec.globalTimeout > 0 then p.spec.globalTimeout else p.config.globalTimeout
  }

  /** The same for the wait for a replacement, which comes on top of the drain. */
  ghost function ReplacementLimit(p: Pass): int {
    if p.spec.upgrade.Some? && p.spec.upgrade.value.replacementTimeout > 0 then p.spec.upgrade.value.replacementTimeout
    else p.config.replacementTimeout
  }

  /** Drained nodes are replaced: there are upgrade terms, and they name no other strategy. */
  ghost predicate ForReplacement(p: Pass) {
    p.spec.upgrade.Some? && p.spec.upgrade.value.strategy in {UpgradeUnset, UpgradeReplaceNode}
  }

  /** The request names a version for its nodes. */
  ghost predicate Versioned(p: Pass) {
    p.spec.upgrade.Some? && p.spec.upgrade.value.targetVersion != ""
  }

  /** The approval policy of the request, or else that of the policy, or else none. */
  ghost function ApprovalIn(p: Pass): ApprovalPolicy
    requires p.policy.Some?
  {
    if p.spec.approval != ApprovalUnset then p.spec.approval
    else if p.policy.value.defaultApproval != ApprovalUnset then p.policy.value.defaultApproval
    else ApprovalAuto
  }

  /** The gate is asked for and not approved. */
  ghost predicate Withheld(p: Pass, gate: Gate)
    requires p.policy.Some?
  {
    ApprovalIn(p) in Approval.Asking(gate) && !Approval.Decided(p.spec.gates, gate, DecisionApproved)
  }

  /** How many nodes the request asks to have in flight, at least one. */
  ghost function Wanted(p: Pass): int {
    if p.spec.maxConcurrent > 1 then p.spec.maxConcurrent else 1
  }

  /** How many nodes the policy lets all requests have in flight, at least one. */
  ghost function ClusterCap(p: Pass): int
    requires p.policy.Some?
  {
    if p.policy.value.maxConcurrentDrains > 1 then p.policy.value.maxConcurrentDrains else 1
  }

  /** How many nodes of other requests are in flight, as far as that can be told. */
  ghost function Elsewhere(p: Pass): nat {
    if p.others.Some? then p.others.value else 0
  }

  // ----- the terms are those of the pass -----

  lemma VerdictIn(p: Pass, gate: Gate)
    requires p.policy.Some?
    ensures Policy.ApprovalFor(PolicyOf(p), p.spec) == ApprovalIn(p)
    ensures VerdictAt(p, PolicyOf(p), gate) == NotRequired <==> ApprovalIn(p) !in Approval.Asking(gate)
    ensures VerdictAt(p, PolicyOf(p), gate) == Approved
            <==> ApprovalIn(p) in Approval.Asking(gate) && Approval.Decided(p.spec.gates, gate, DecisionApproved)
    ensures VerdictAt(p, PolicyOf(p), gate) == Rejected
            <==> ApprovalIn(p) in Approval.Asking(gate) && Approval.Decided(p.spec.gates, gate, DecisionRejected)
  {
    Approval.VerdictMeaning(ApprovalIn(p), p.spec.gates, gate);
  }

  lemma HeldIff(p: Pass)
    requires p.policy.Some?
    ensures UncordonHeld(p, PolicyOf(p)) <==> Withheld(p, GateUncordon) && !ForReplacement(p)
  {
    VerdictIn(p, GateUncordon);
  }

  lemma ContextIs(p: Pass)
    requires p.policy.Some?
    ensures var c := ContextOf(p, PolicyOf(p));
            && c.spec == p.spec && c.now == p.now && c.drainTimeout == DrainLimit(p) && c.replacementTimeout == ReplacementLimit(p)
            && (c.windowOpen <==> p.windows == Some(true))
            && (c.held <==> Withheld(p, GateUncordon) && !ForReplacement(p))
  {
    HeldIff(p);
  }

  /** There is room for one more exactly below both the request's wish and what the cap leaves. */
  lemma BudgetIs(p: Pass, fl: nat)
    requires p.policy.Some?
    ensures fl < ContextOf(p, PolicyOf(p)).concurrency <==> fl < Wanted(p) && fl + Elsewhere(p) < ClusterCap(p)
  {
  }

  lemma SpecTerms(p: Pass)
    ensures p.spec.ReplaceNodes() <==> ForReplacement(p)
    ensures p.spec.TargetVersion() != "" <==> Versioned(p)
    ensures Versioned(p) ==> p.spec.TargetVersion() == p.spec.upgrade.value.targetVersion
  {
  }

  // ----- the step of a node that is reached -----

  /** The step the visit makes when it comes to the node. */
  ghost function StepOf(p: Pass, s: Status, i: nat): StepOut
    requires p.policy.Some? && i < |s.nodes|
  {
    Step(ContextOf(p, PolicyOf(p)), AnswerAt(p.answers, i), s.nodes[i], Caps.VisitedTo(p, s, i).inFlight)
  }

  lemma {:induction false} OneVisited(c: StepContext, answers: seq<NodeAnswer>, b: int, ns: seq<NodeRec>, fl: int, i: nat)
    requires i < |ns| && ns[i].batch == b && !IsNodeTerminal(ns[i].phase) && !StepTo(c, answers, b, ns, fl, i).err
    ensures var o, st := StepTo(c, answers, b, ns, fl, i + 1), Step(c, AnswerAt(answers, i), ns[i], StepTo(c, answers, b, ns, fl, i).inFlight);
            o.nodes[i] == st.rec && o.err == st.err && forall e | e in st.events :: e in o.events
  {
  }

  lemma {:induction false} AllVisited(c: StepContext, answers: seq<NodeAnswer>, b: int, ns: seq<NodeRec>, fl: int, i: nat)
    requires i < |ns|
    ensures var q, o := StepTo(c, answers, b, ns, fl, i + 1), StepTo(c, answers, b, ns, fl, |ns|);
            o.nodes[i] == q.nodes[i] && (q.err ==> o.err) && forall e | e in q.events :: e in o.events
  {
    Caps.VisitedOnce(c, answers, b, ns, fl, i, |ns|);
    Evictions.EventsGrow(c, answers, b, ns, fl, i + 1, |ns|);
    if StepTo(c, answers, b, ns, fl, i + 1).err {
      StepToStops(c, answers, b, ns, fl, i + 1);
    }
  }

  /** A node that is reached is left as its step leaves it; the step's calls are among those of the pass, and its error
    * is the error of the pass. */
  lemma ReachedSteps(p: Pass, s: Status, i: nat)
    requires StatusOk(s) && Reached(p, s, i)
    ensures |NodesAfter(p, s)| == |s.nodes| && NodesAfter(p, s)[i] == StepOf(p, s, i).rec
    ensures forall e | e in StepOf(p, s, i).events :: e in Reconcile(p, s).events
    ensures StepOf(p, s, i).err ==> Reconcile(p, s).err
  {
    var c, b, fl := ContextOf(p, PolicyOf(p)), CurrentBatch(s.nodes), CountIn(s.nodes, IN_FLIGHT);
    OneVisited(c, p.answers, b, s.nodes, fl, i);
    AllVisited(c, p.answers, b, s.nodes, fl, i);
    VisitIsPass(p, s);
  }

  lemma VisitIsPass(p: Pass, s: Status)
    requires StatusOk(s) && RunsBatch(p, s)
    ensures forall e | e in RunBatch(p, PolicyOf(p), s).events :: e in Reconcile(p, s).events
    ensures RunBatch(p, PolicyOf(p), s).err ==> Reconcile(p, s).err
  {
    PassCalls(p, s);
    assert BatchCalls(p, s) == RunBatch(p, PolicyOf(p), s).events;
    if RunBatch(p, PolicyOf(p), s).err {
      VisitErr(p, s);
    }
  }

  lemma VisitErr(p: Pass, s: Status)
    requires RunsBatch(p, s) && RunBatch(p, PolicyOf(p), s).err
    ensures Reconcile(p, s).err
  {
  }

  // ----- a pending node -----

  /** How many of the records are in a working phase. */
  ghost function Working(ns: seq<NodeRec>): int {
    |set i: nat | i < |ns| && ns[i].phase in {NodeCordoning, NodeDraining, NodePostCheck, NodeUncordoning, NodeReplacing,
                                              NodeAwaitingReplacement}|
  }

  lemma {:induction false} WorkingIsCount(ns: seq<NodeRec>)
    ensures Working(ns) == CountIn(ns, IN_FLIGHT)
  {
    InPhasesIsCount(ns, IN_FLIGHT);
    assert InPhases(ns, IN_FLIGHT) == set i: nat | i < |ns| && ns[i].phase in {NodeCordoning, NodeDraining, NodePostCheck,
                                                                NodeUncordoning, NodeReplacing, NodeAwaitingReplacement};
  }

  ghost function InPhases(ns: seq<NodeRec>, phases: set<NodePhase>): set<nat> {
    set i: nat | i < |ns| && ns[i].phase in phases
  }

  lemma {:induction false} InPhasesIsCount(ns: seq<NodeRec>, phases: set<NodePhase>)
    ensures |InPhases(ns, phases)| == CountIn(ns, phases)
  {
    if ns == [] {
      assert InPhases(ns, phases) == {};
    } else {
      var n := |ns| - 1;
      InPhasesIsCount(ns[..n], phases);
      InPhasesLast(ns, phases, if ns[n].phase in phases then {n} else {});
      assert InPhases(ns[..n], phases) !! {n};
    }
  }

  lemma InPhasesLast(ns: seq<NodeRec>, phases: set<NodePhase>, more: set<nat>)
    requires ns != []
    requires var n := |ns| - 1; more == if ns[n].phase in phases then {n} else {}
    ensures InPhases(ns, phases) == InPhases(ns[..|ns| - 1], phases) + more
  {
    var n := |ns| - 1;
    forall i: nat ensures i in InPhases(ns, phases) <==> i in InPhases(ns[..n], phases) + more {
      if i < n {
        assert ns[..n][i] == ns[i];
      }
    }
  }

  /** On every run the stored summary counts the nodes by phase. */
  lemma SummaryCounts(ps: seq<Pass>)
    ensures var s := Run(ps).status;
            s.summary == Summary(|s.nodes|, |InPhases(s.nodes, {NodePending})|, Working(s.nodes), |InPhases(s.nodes, {NodeCompleted})|,
                                 |InPhases(s.nodes, {NodeBlocked})|, |InPhases(s.nodes, {NodeFailed})|, |InPhases(s.nodes, {NodeSkipped})|)
  {
    var ns := Run(ps).status.nodes;
    StatusAlwaysOk(ps);
    WorkingIsCount(ns);
    InPhasesIsCount(ns, {NodePending});
    InPhasesIsCount(ns, {NodeCompleted});
    InPhasesIsCount(ns, {NodeBlocked});
    InPhasesIsCount(ns, {NodeFailed});
    InPhasesIsCount(ns, {NodeSkipped});
  }

  /** The records when the visit comes to node i: those before it as the pass leaves them, the others as they were. */
  ghost function SoFar(p: Pass, s: Status, i: nat): seq<NodeRec>
    requires |NodesAfter(p, s)| == |s.nodes| && i <= |s.nodes|
  {
    NodesAfter(p, s)[..i] + s.nodes[i..]
  }

  lemma SoFarIs(p: Pass, s: Status, i: nat)
    requires StatusOk(s) && RunsBatch(p, s) && i < |s.nodes| == |NodesAfter(p, s)|
    ensures SoFar(p, s, i) == Caps.VisitedTo(p, s, i).nodes && Caps.VisitedTo(p, s, i).inFlight == Working(SoFar(p, s, i))
  {
    var c, b, fl := ContextOf(p, PolicyOf(p)), CurrentBatch(s.nodes), CountIn(s.nodes, IN_FLIGHT);
    var q := Caps.VisitedTo(p, s, i);
    forall j | 0 <= j < i ensures q.nodes[j] == NodesAfter(p, s)[j] {
      Caps.VisitedOnce(c, p.answers, b, s.nodes, fl, j, |s.nodes|);
      Caps.VisitedOnce(c, p.answers, b, s.nodes, fl, j, i);
    }
    assert SoFar(p, s, i) == q.nodes;
    Caps.LoopCounts(c, p.answers, b, s.nodes, i);
    WorkingIsCount(q.nodes);
  }

  /** There is room for node i to start: the window is open, and fewer nodes are in flight than the request wants, and with
    * those of other requests fewer than the policy's cap. */
  ghost predicate Room(p: Pass, s: Status, i: nat)
    requires p.policy.Some? && |NodesAfter(p, s)| == |s.nodes| && i <= |s.nodes|
  {
    && p.windows == Some(true)
    && Working(SoFar(p, s, i)) < Wanted(p) && Working(SoFar(p, s, i)) + Elsewhere(p) < ClusterCap(p)
  }

  /** The lookup says that the node is to be drained: it exists, the Machine Config Operator does not manage it, and it is
    * not at the version the request names already. */
  ghost predicate ToBeDrained(p: Pass, lookup: NodeLookup) {
    lookup.NodeFound? && !lookup.mcoManaged && !(Versioned(p) && lookup.kubeletVersion == p.spec.upgrade.value.targetVersion)
  }

  /** Without room nothing becomes of a pending node; with room it starts if and only if it is to be drained, stays with an
    * error if and only if the lookup fails, and is skipped otherwise. */
  ghost predicate PendingMoves(p: Pass, room: bool, lookup: NodeLookup, was: NodeRec, r: NodeRec, err: bool) {
    && (!room ==> r == was)
    && (room ==>
          && (r.phase == NodeCordoning <==> ToBeDrained(p, lookup))
          && (r.phase == NodeSkipped <==> !lookup.LookupError? && !ToBeDrained(p, lookup))
          && (r.phase == NodePending <==> lookup.LookupError?)
          && (lookup.LookupError? ==> err)
          && (r.phase == NodeCordoning ==> r.startTime == Some(p.now)))
  }

  /** So much becomes of a pending node that the visit comes to. */
  lemma PendingOutcome(p: Pass, s: Status, i: nat)
    requires StatusOk(s) && Reached(p, s, i) && s.nodes[i].phase == NodePending
    ensures |NodesAfter(p, s)| == |s.nodes|
    ensures PendingMoves(p, Room(p, s, i), AnswerAt(p.answers, i).lookup, s.nodes[i], NodesAfter(p, s)[i], Reconcile(p, s).err)
  {
    ReachedSteps(p, s, i);
    SoFarIs(p, s, i);
    StepMoves(p, AnswerAt(p.answers, i), s.nodes[i], Working(SoFar(p, s, i)), StepOf(p, s, i));
    assert StepOf(p, s, i).err ==> Reconcile(p, s).err;
  }

  lemma StepMoves(p: Pass, a: NodeAnswer, was: NodeRec, fl: nat, st: StepOut)
    requires p.policy.Some? && was.phase == NodePending && st == Step(ContextOf(p, PolicyOf(p)), a, was, fl)
    ensures PendingMoves(p, p.windows == Some(true) && fl < Wanted(p) && fl + Elsewhere(p) < ClusterCap(p), a.lookup, was, st.rec, st.err)
  {
    ContextIs(p);
    BudgetIs(p, fl);
    SpecTerms(p);
    PendingStep(ContextOf(p, PolicyOf(p)), a, was, fl);
  }

  lemma PendingStep(c: StepContext, a: NodeAnswer, r: NodeRec, fl: int)
    requires r.phase == NodePending
    ensures var st, at := Step(c, a, r, fl), c.spec.TargetVersion();
            if fl < c.concurrency && c.windowOpen then
              match a.lookup
              case LookupError => st.rec == r && st.err
              case NodeNotFound => st.rec.phase == NodeSkipped
              case NodeFound(mco, version) =>
                if mco || (at != "" && version == at) then st.rec.phase == NodeSkipped
                else st.rec.phase == NodeCordoning && st.rec.startTime == Some(c.now)
            else st.rec == r
  {
  }

  // ----- a node in flight -----

  /** A cordoning node is cordoned, and drains from then on if and only if that succeeds. */
  lemma CordoningOutcome(p: Pass, s: Status, i: nat)
    requires StatusOk(s) && Reached(p, s, i) && s.nodes[i].phase == NodeCordoning
    ensures |NodesAfter(p, s)| == |s.nodes|
    ensures var r, ok := NodesAfter(p, s)[i], AnswerAt(p.answers, i).cordonOk;
            && CordonCall(r.node, ok) in Reconcile(p, s).events
            && (if ok then r == s.nodes[i].(phase := NodeDraining) else r == s.nodes[i] && Reconcile(p, s).err)
  {
    ReachedSteps(p, s, i);
    assert StepOf(p, s, i).events == [CordonCall(s.nodes[i].node, AnswerAt(p.answers, i).cordonOk)];
  }

  /** A draining node gets an eviction round. It is drained if and only if the round counts no pod left, and blocked if and
    * only if pods are left and its drain is overdue, for the reason the round gives or else for the time; the round is
    * added to its progress. */
  lemma DrainingOutcome(p: Pass, s: Status, i: nat)
    requires StatusOk(s) && Reached(p, s, i) && s.nodes[i].phase == NodeDraining
    ensures |NodesAfter(p, s)| == |s.nodes|
    ensures var r, was := NodesAfter(p, s)[i], s.nodes[i];
            match AnswerAt(p.answers, i).evict
            case None => r == was && Reconcile(p, s).err && EvictRound(r.node, None) in Reconcile(p, s).events
            case Some(round) =>
              && EvictRound(r.node, Some(round.blocking)) in Reconcile(p, s).events
              && (r.phase == NodePostCheck <==> round.blocking == 0)
              && (r.phase == NodeBlocked <==> round.blocking > 0 && Overdue(was.startTime, p.now, DrainLimit(p)))
              && (r.phase == NodeDraining <==> round.blocking > 0 && !Overdue(was.startTime, p.now, DrainLimit(p)))
              && (r.phase == NodeBlocked ==> r.blockReason == if round.reason == NoReason then BlockTimeout else round.reason)
              && r.remainingPods == round.blocking && r.evictedPods == was.evictedPods + round.evicted
              && r.totalPods == (if was.totalPods > 0 then was.totalPods else round.blocking)
              && r.startTime == was.startTime
  {
    ReachedSteps(p, s, i);
    ContextIs(p);
    DrainingStep(ContextOf(p, PolicyOf(p)), AnswerAt(p.answers, i), s.nodes[i], Caps.VisitedTo(p, s, i).inFlight);
  }

  lemma DrainingStep(c: StepContext, a: NodeAnswer, was: NodeRec, fl: int)
    requires was.phase == NodeDraining
    ensures var st := Step(c, a, was, fl);
            match a.evict
            case None => st.rec == was && st.err && EvictRound(was.node, None) in st.events
            case Some(round) =>
              && EvictRound(was.node, Some(round.blocking)) in st.events && st.rec.node == was.node
              && st.rec.phase == (if round.blocking == 0 then NodePostCheck
                                  else if Overdue(was.startTime, c.now, c.drainTimeout) then NodeBlocked
                                  else NodeDraining)
              && (st.rec.phase == NodeBlocked ==> st.rec.blockReason == if round.reason == NoReason then BlockTimeout else round.reason)
              && st.rec.remainingPods == round.blocking && st.rec.evictedPods == was.evictedPods + round.evicted
              && st.rec.totalPods == (if was.totalPods > 0 then was.totalPods else round.blocking)
              && st.rec.startTime == was.startTime
  {
    assert Step(c, a, was, fl).events == [EvictRound(was.node, if a.evict.None? then None else Some(a.evict.value.blocking))];
  }

  /** A drained node that is reached is replaced by a replacement request, done if it is to stay cordoned, and uncordoned
    * from then on otherwise; the gate does not withhold that, or the visit would not have come. */
  lemma PostCheckOutcome(p: Pass, s: Status, i: nat)
    requires StatusOk(s) && Reached(p, s, i) && s.nodes[i].phase == NodePostCheck
    ensures |NodesAfter(p, s)| == |s.nodes|
    ensures var r := NodesAfter(p, s)[i];
            && (r.phase == NodeReplacing <==> ForReplacement(p))
            && (r.phase == NodeCompleted <==> !ForReplacement(p) && !p.spec.uncordonAfter)
            && (r.phase == NodeUncordoning <==> !ForReplacement(p) && p.spec.uncordonAfter)
    ensures ForReplacement(p) || !Withheld(p, GateUncordon)
  {
    ReachedSteps(p, s, i);
    CountBounds(s.nodes, {NodePostCheck});
    HeldIff(p);
    ContextIs(p);
    SpecTerms(p);
    PostCheckStep(ContextOf(p, PolicyOf(p)), AnswerAt(p.answers, i), s.nodes[i], Caps.VisitedTo(p, s, i).inFlight);
  }

  lemma PostCheckStep(c: StepContext, a: NodeAnswer, was: NodeRec, fl: int)
    requires was.phase == NodePostCheck && !c.held
    ensures Step(c, a, was, fl).rec.phase ==
            if c.spec.ReplaceNodes() then NodeReplacing
            else if c.spec.uncordonAfter then NodeUncordoning
            else NodeCompleted
  {
  }

  /** An uncordoning node is uncordoned, and completed if and only if that succeeds. */
  lemma UncordoningOutcome(p: Pass, s: Status, i: nat)
    requires StatusOk(s) && Reached(p, s, i) && s.nodes[i].phase == NodeUncordoning
    ensures |NodesAfter(p, s)| == |s.nodes|
    ensures var r, ok := NodesAfter(p, s)[i], AnswerAt(p.answers, i).uncordonOk;
            && UncordonCall(r.node, ok, false) in Reconcile(p, s).events
            && (if ok then r.phase == NodeCompleted else r == s.nodes[i] && Reconcile(p, s).err)
  {
    ReachedSteps(p, s, i);
    assert StepOf(p, s, i).events == [UncordonCall(s.nodes[i].node, AnswerAt(p.answers, i).uncordonOk, false)];
  }

  /** A node to be replaced has its Machine deleted, once the Ready nodes at the named version are counted. It fails if and
    * only if it has no Machine, and waits for its replacement if and only if the Machine is deleted. */
  lemma ReplacingOutcome(p: Pass, s: Status, i: nat)
    requires StatusOk(s) && Reached(p, s, i) && s.nodes[i].phase == NodeReplacing
    ensures |NodesAfter(p, s)| == |s.nodes|
    ensures var r, a := NodesAfter(p, s)[i], AnswerAt(p.answers, i);
            if Versioned(p) && a.ready.None? then r == s.nodes[i] && Reconcile(p, s).err
            else
              && ReplaceCall(r.node, a.replace) in Reconcile(p, s).events
              && (Versioned(p) ==> r.baseline == a.ready.value)
              && (r.phase == NodeFailed <==> a.replace == NoMachine)
              && (r.phase == NodeAwaitingReplacement <==> a.replace == MachineDeleted)
              && (r.phase == NodeReplacing <==> a.replace == ReplaceError)
              && (a.replace == ReplaceError ==> Reconcile(p, s).err)
              && (r.phase == NodeFailed ==> r.blockReason == BlockMachineNotFound)
  {
    ReachedSteps(p, s, i);
    ContextIs(p);
    SpecTerms(p);
    ReplacingStep(ContextOf(p, PolicyOf(p)), AnswerAt(p.answers, i), s.nodes[i], Caps.VisitedTo(p, s, i).inFlight);
  }

  lemma ReplacingStep(c: StepContext, a: NodeAnswer, was: NodeRec, fl: int)
    requires was.phase == NodeReplacing
    ensures var st := Step(c, a, was, fl);
            if c.spec.TargetVersion() != "" && a.ready.None? then st.rec == was && st.err
            else
              && ReplaceCall(was.node, a.replace) in st.events && st.rec.node == was.node
              && (c.spec.TargetVersion() != "" ==> st.rec.baseline == a.ready.value)
              && st.rec.phase == (match a.replace case NoMachine => NodeFailed case MachineDeleted => NodeAwaitingReplacement
                                  case ReplaceError => NodeReplacing)
              && (a.replace == ReplaceError ==> st.err) && (a.replace == NoMachine ==> st.rec.blockReason == BlockMachineNotFound)
  {
    if !(c.spec.TargetVersion() != "" && a.ready.None?) {
      assert Step(c, a, was, fl).events == [ReplaceCall(was.node, a.replace)];
    }
  }

  /** The answers say that the replacement is there: the node is gone, and where a version is named more nodes are Ready at
    * it than when the Machine was deleted. */
  ghost predicate Replaced(p: Pass, a: NodeAnswer, baseline: int) {
    a.gone == Some(true) && (Versioned(p) ==> a.ready.Some? && a.ready.value > baseline)
  }

  /** The cluster did not answer what the wait depends on. */
  ghost predicate Unanswered(p: Pass, a: NodeAnswer) {
    a.gone.None? || (a.gone.value && Versioned(p) && a.ready.None?)
  }

  /** A node that awaits its replacement is completed if and only if that is there, and blocked if and only if it is not and
    * the wait is overdue; without an answer it stays, with an error. */
  lemma AwaitingOutcome(p: Pass, s: Status, i: nat)
    requires StatusOk(s) && Reached(p, s, i) && s.nodes[i].phase == NodeAwaitingReplacement
    ensures |NodesAfter(p, s)| == |s.nodes|
    ensures var r, was, a := NodesAfter(p, s)[i], s.nodes[i], AnswerAt(p.answers, i);
            var late := Overdue(was.startTime, p.now, DrainLimit(p) + ReplacementLimit(p));
            if Unanswered(p, a) then r == was && Reconcile(p, s).err
            else
              && (r.phase == NodeCompleted <==> Replaced(p, a, was.baseline))
              && (r.phase == NodeBlocked <==> !Replaced(p, a, was.baseline) && late)
              && (r.phase == NodeAwaitingReplacement <==> !Replaced(p, a, was.baseline) && !late)
              && (r.phase == NodeBlocked ==> r.blockReason == BlockReplaceTimeout)
  {
    ReachedSteps(p, s, i);
    ContextIs(p);
    SpecTerms(p);
    AwaitingStep(ContextOf(p, PolicyOf(p)), AnswerAt(p.answers, i), s.nodes[i], Caps.VisitedTo(p, s, i).inFlight);
  }

  lemma AwaitingStep(c: StepContext, a: NodeAnswer, was: NodeRec, fl: int)
    requires was.phase == NodeAwaitingReplacement
    ensures var st, versioned := Step(c, a, was, fl), c.spec.TargetVersion() != "";
            if a.gone.None? || (a.gone.value && versioned && a.ready.None?) then st.rec == was && st.err
            else
              && st.rec.phase ==
                   (if a.gone.value && (versioned ==> a.ready.value > was.baseline) then NodeCompleted
                    else if Overdue(was.startTime, c.now, c.drainTimeout + c.replacementTimeout) then NodeBlocked
                    else NodeAwaitingReplacement)
              && (st.rec.phase == NodeBlocked ==> st.rec.blockReason == BlockReplaceTimeout)
  {
  }

  /** A record that the visit does not come to stays as it is, and one that ends in it ends at its time. */
  lemma VisitLeavesAndEnds(p: Pass, s: Status, i: nat)
    requires StatusOk(s) && RunsBatch(p, s) && i < |s.nodes|
    ensures |NodesAfter(p, s)| == |s.nodes|
    ensures !Reached(p, s, i) ==> NodesAfter(p, s)[i] == s.nodes[i]
    ensures Reached(p, s, i) && IsNodeTerminal(NodesAfter(p, s)[i].phase) ==> NodesAfter(p, s)[i].endTime == Some(p.now)
  {
    if Reached(p, s, i) {
      ReachedSteps(p, s, i);
      assert RecOk(s.nodes[i]);
      StepEnds(ContextOf(p, PolicyOf(p)), AnswerAt(p.answers, i), s.nodes[i], Caps.VisitedTo(p, s, i).inFlight);
    } else {
      Caps.VisitedOnce(ContextOf(p, PolicyOf(p)), p.answers, CurrentBatch(s.nodes), s.nodes, CountIn(s.nodes, IN_FLIGHT), i, |s.nodes|);
    }
  }

  lemma StepEnds(c: StepContext, a: NodeAnswer, was: NodeRec, fl: int)
    requires !IsNodeTerminal(was.phase) && was.endTime.None?
    ensures IsNodeTerminal(Step(c, a, was, fl).rec.phase) ==> Step(c, a, was, fl).rec.endTime == Some(c.now)
  {
  }
}
