/** A run on which the concurrency of a replacement request does not bound how far its completed nodes run ahead of the
  * new ones: one node at a time, both block, a retry puts both in flight, and one new node pays for the two. */
module Unpaid {
  import opened Api
  import opened NodeMachine
  import opened Passes
  import opened Invariant
  import opened PassFacts
  import opened Caps
  import opened Replacement
  import BlockedRuns
  import Planner
  import Policy
  import Solo
  import Twins

  const SPEC := RequestSpec(ModeExecute, StrategyByZone, 1, 1, 0, 0, true, ApprovalAuto, [], false, false,
                            Some(UpgradeSpec(UpgradeReplaceNode, "v2", 0)))
  const NODES := [TargetNode("a", false, "", None), TargetNode("b", false, "", None)]
  const TARGET := Target(NODES, [], NODES)
  const CASE := BlockedRuns.Case(PolicySpec(1, 0, 0, 1, ApprovalAuto), SPEC, TARGET, 100)

  /** Every call succeeds, the node is empty, it goes when its Machine is deleted, and this many nodes are Ready. */
  function Friendly(ready: int): NodeAnswer {
    NodeAnswer(NodeFound(false, ""), true, Some(EvictResult(0, 0, 0, NoReason)), true, Some(ready), MachineDeleted, Some(true))
  }

  function Go(now: int, ready: int): Pass {
    CASE.At(now).(answers := [Friendly(ready), Friendly(ready)])
  }

  /** The request executes since time 4, with its two records of one batch in the phase, replaced from a count of zero. */
  ghost predicate Both(s: Status, ph: NodePhase) {
    && StatusOk(s) && s.phase == PhaseExecuting && s.startTime == Some(4)
    && |s.nodes| == 2 && s.nodes[0].batch == s.nodes[1].batch && s.nodes[0].phase == s.nodes[1].phase == ph
    && (ph == NodeAwaitingReplacement ==> s.nodes[0].baseline == s.nodes[1].baseline == 0)
  }

  // ----- visits of both -----

  lemma RunsBoth(p: Pass, s: Status, ph: NodePhase, now: int, ready: int)
    requires p == Go(now, ready) && now <= 104 && Both(s, ph) && !IsNodeTerminal(ph)
    ensures RunsBatch(p, s) && CurrentBatch(s.nodes) == s.nodes[0].batch
  {
    Twins.CountTwo(s.nodes, {NodeFailed});
    Twins.CurrentOfTwo(s.nodes);
  }

  ghost predicate MovedTo(st: StepOut, r: NodeRec, ph: NodePhase) {
    st.rec.phase == ph && !st.err && st.rec.batch == r.batch && (ph == NodeAwaitingReplacement ==> st.rec.baseline == 0)
  }

  /** The step takes the record to the phase, whatever else is in flight. */
  ghost predicate StepsTo(c: StepContext, a: NodeAnswer, r: NodeRec, ph: NodePhase) {
    forall fl :: MovedTo(Step(c, a, r, fl), r, ph)
  }

  lemma VisitBoth(p: Pass, s: Status, ready: int, ph: NodePhase)
    requires RunsBatch(p, s) && p.answers == [Friendly(ready), Friendly(ready)]
    requires |s.nodes| == 2 && s.nodes[0].batch == s.nodes[1].batch == CurrentBatch(s.nodes)
    requires !IsNodeTerminal(s.nodes[0].phase) && !IsNodeTerminal(s.nodes[1].phase)
    requires forall i | 0 <= i < 2 :: StepsTo(ContextOf(p, PolicyOf(p)), Friendly(ready), s.nodes[i], ph)
    ensures var o := RunBatch(p, PolicyOf(p), s);
            && !o.err && |o.nodes| == 2 && o.nodes[0].phase == o.nodes[1].phase == ph
            && o.nodes[0].batch == o.nodes[1].batch == s.nodes[0].batch
            && (ph == NodeAwaitingReplacement ==> o.nodes[0].baseline == o.nodes[1].baseline == 0)
  {
    var c := ContextOf(p, PolicyOf(p));
    var x := Step(c, Friendly(ready), s.nodes[0], CountIn(s.nodes, IN_FLIGHT));
    assert MovedTo(x, s.nodes[0], ph);
    assert MovedTo(Step(c, Friendly(ready), s.nodes[1], x.inFlight), s.nodes[1], ph);
    Twins.VisitTwo(c, p.answers, s.nodes, CountIn(s.nodes, IN_FLIGHT));
  }

  /** What the visit makes of the request. */
  lemma AfterBoth(p: Pass, s: Status, o: LoopOut, ph: NodePhase)
    requires |o.nodes| == 2 && !o.err && o.nodes[0].phase == o.nodes[1].phase == ph
    requires o.nodes[0].batch == o.nodes[1].batch >= 0 && s.phase == PhaseExecuting
    ensures var m := AfterBatch(p, s, o).mem;
            m.nodes == o.nodes && m.startTime == s.startTime && (!IsNodeTerminal(ph) ==> m.phase == PhaseExecuting)
  {
    CurrentBatchIsLeast(o.nodes);
  }

  /** A pass that moves both records on. */
  lemma MovesBoth(p: Pass, s: Status, ready: int, now: int, was: NodePhase, ph: NodePhase)
    requires p == Go(now, ready) && now <= 104 && Both(s, was) && !IsNodeTerminal(was) && !IsNodeTerminal(ph)
    requires forall i | 0 <= i < 2 :: StepsTo(ContextOf(p, PolicyOf(p)), Friendly(ready), s.nodes[i], ph)
    ensures Both(Reconcile(p, s).mem, ph) && Reconcile(p, s).wrote
  {
    RunsBoth(p, s, was, now, ready);
    VisitBoth(p, s, ready, ph);
    PassKeepsStatus(p, s);
    Solo.VisitIs(p, s);
    AfterBoth(p, s, RunBatch(p, PolicyOf(p), s), ph);
  }

  lemma DrainsBoth(s: Status, now: int)
    requires now <= 104 && Both(s, NodeDraining)
    ensures Both(Reconcile(Go(now, 0), s).mem, NodePostCheck) && Reconcile(Go(now, 0), s).wrote
  {
    MovesBoth(Go(now, 0), s, 0, now, NodeDraining, NodePostCheck);
  }

  lemma TurnsBoth(s: Status, now: int)
    requires now <= 104 && Both(s, NodePostCheck)
    ensures Both(Reconcile(Go(now, 0), s).mem, NodeReplacing) && Reconcile(Go(now, 0), s).wrote
  {
    MovesBoth(Go(now, 0), s, 0, now, NodePostCheck, NodeReplacing);
  }

  lemma ReplacesBoth(s: Status, now: int)
    requires now <= 104 && Both(s, NodeReplacing)
    ensures Both(Reconcile(Go(now, 0), s).mem, NodeAwaitingReplacement) && Reconcile(Go(now, 0), s).wrote
  {
    MovesBoth(Go(now, 0), s, 0, now, NodeReplacing, NodeAwaitingReplacement);
  }

  lemma StepsToCompletion(c: StepContext, r: NodeRec)
    requires c.spec == SPEC && r.phase == NodeAwaitingReplacement && r.baseline == 0
    ensures StepsTo(c, Friendly(1), r, NodeCompleted)
  {
  }

  lemma BothCompleted(p: Pass, s: Status, o: LoopOut)
    requires |o.nodes| == 2 && !o.err && o.nodes[0].phase == o.nodes[1].phase == NodeCompleted
    requires o.nodes[0].batch == o.nodes[1].batch >= 0 && s.phase == PhaseExecuting
    ensures CountIn(AfterBatch(p, s, o).mem.nodes, {NodeCompleted}) == 2
  {
    AfterBoth(p, s, o, NodeCompleted);
    Twins.CountTwo(o.nodes, {NodeCompleted});
  }

  /** The last visit: both are completed. */
  lemma CompletesBoth(p: Pass, s: Status, now: int)
    requires p == Go(now, 1) && now <= 104 && Both(s, NodeAwaitingReplacement)
    ensures CountIn(Reconcile(p, s).mem.nodes, {NodeCompleted}) == 2 && Reconcile(p, s).wrote
  {
    RunsBoth(p, s, NodeAwaitingReplacement, now, 1);
    LastVisit(p, s, now);
    Solo.VisitIs(p, s);
    BothCompleted(p, s, RunBatch(p, PolicyOf(p), s));
  }

  lemma LastVisit(p: Pass, s: Status, now: int)
    requires p == Go(now, 1) && RunsBatch(p, s)
    requires |s.nodes| == 2 && s.nodes[0].batch == s.nodes[1].batch == CurrentBatch(s.nodes)
    requires forall i | 0 <= i < 2 :: s.nodes[i].phase == NodeAwaitingReplacement && s.nodes[i].baseline == 0
    ensures var o := RunBatch(p, PolicyOf(p), s);
            && |o.nodes| == 2 && !o.err && o.nodes[0].phase == o.nodes[1].phase == NodeCompleted
            && o.nodes[0].batch == o.nodes[1].batch == s.nodes[0].batch
  {
    StepsToCompletion(ContextOf(p, PolicyOf(p)), s.nodes[0]);
    StepsToCompletion(ContextOf(p, PolicyOf(p)), s.nodes[1]);
    VisitBoth(p, s, 1, NodeCompleted);
  }

  // ----- the retry -----

  lemma OneBatchPlan(plan: Plan)
    requires plan == CASE.Planned()
    ensures |plan.batches| <= 1
  {
    OneZone();
    Twins.PlanByZone(CASE.At(0), CASE.Terms(), TARGET);
  }

  lemma OneZone()
    ensures |Planner.GroupAll(Planner.ByZone, NODES)| <= 1
  {
    Twins.OneKey(NODES, Planner.KeyOf(Planner.ByZone, NODES[0]));
  }

  lemma SameBatch(plan: Plan, ns: seq<NodeRec>)
    requires plan == CASE.Planned() && SameShape(ns, InitNodes(plan.batches))
    ensures |ns| == 2 && ns[0].batch == ns[1].batch
  {
    BlockedRuns.PlannedCovers(CASE);
    OneBatchPlan(plan);
    Planner.BatchesPartition(plan.strategy, NODES, SPEC.batchSize, Policy.Concurrency(CASE.Terms(), SPEC.maxConcurrent));
    InitNodesOk(plan.batches);
  }

  lemma RetriesBoth(plan: Plan, s: Status, now: int)
    requires plan == CASE.Planned() && BlockedRuns.AllStuck(plan, s, 4) && now <= 104
    ensures Both(Reconcile(Go(now, 0), s).mem, NodeDraining) && Reconcile(Go(now, 0), s).wrote
    ensures Retries(Go(now, 0), s)
  {
    var p := Go(now, 0);
    SameBatch(plan, s.nodes);
    Twins.CountTwo(s.nodes, {NodeBlocked});
    PassKeepsStatus(p, s);
    RetryIs(p, s);
  }

  lemma RetryIs(p: Pass, s: Status)
    requires Retries(p, s)
    ensures var m := Reconcile(p, s).mem;
            m.nodes == RetryAll(s.nodes, p.now) && m.phase == PhaseExecuting && m.startTime == s.startTime
    ensures Reconcile(p, s).wrote
  {
  }

  // ----- the run -----

  lemma RunOn(ps: seq<Pass>, p: Pass)
    ensures Run(ps + [p]) == Next(Run(ps), p)
  {
    assert (ps + [p])[..|ps|] == ps;
  }

  /** The passes of the run: the terms of the request, at most one node at a time, and no count above upper reported. */
  ghost predicate Terms(ps: seq<Pass>, upper: int) {
    forall i | 0 <= i < |ps| ::
      && ps[i].spec == SPEC && ps[i].policy == Some(CASE.raw) && NeverShrinks(ps[i].answers, 0, upper)
  }

  lemma TermsOn(ps: seq<Pass>, p: Pass)
    requires Terms(ps, 0) && p.spec == SPEC && p.policy == Some(CASE.raw) && NeverShrinks(p.answers, 0, 0)
    ensures Terms(ps + [p], 0)
  {
  }

  /** One more pass that takes both records to the phase. */
  lemma On(ps: seq<Pass>, now: int, ph: NodePhase)
    requires Terms(ps, 0)
    requires var o := Reconcile(Go(now, 0), Run(ps).status); Both(o.mem, ph) && o.wrote
    ensures Terms(ps + [Go(now, 0)], 0) && Both(Run(ps + [Go(now, 0)]).status, ph)
  {
    TermsOn(ps, Go(now, 0));
    RunOn(ps, Go(now, 0));
  }

  /** Three friendly passes drain both nodes and delete their Machines. */
  lemma ToAwaiting(ps: seq<Pass>, now: int) returns (all: seq<Pass>)
    requires Terms(ps, 0) && now <= 104 && Both(Run(ps).status, NodeDraining)
    ensures Terms(all, 0) && Both(Run(all).status, NodeAwaitingReplacement)
  {
    DrainsBoth(Run(ps).status, now);
    On(ps, now, NodePostCheck);
    all := ps + [Go(now, 0)];
    TurnsBoth(Run(all).status, now);
    On(all, now, NodeReplacing);
    all := all + [Go(now, 0)];
    ReplacesBoth(Run(all).status, now);
    On(all, now, NodeAwaitingReplacement);
    all := all + [Go(now, 0)];
  }

  lemma ToDraining() returns (ps: seq<Pass>, now: int)
    ensures Terms(ps, 0) && now <= 104 && Both(Run(ps).status, NodeDraining)
  {
    assert CASE.Passes() by {
      CasePasses();
    }
    var before := BlockedRuns.BlockedRun(CASE);
    now := 2 * |before|;
    RetriesBoth(CASE.Planned(), Run(before).status, now);
    HostileTerms(before);
    On(before, now, NodeDraining);
    ps := before + [Go(now, 0)];
  }

  lemma CasePasses()
    ensures CASE.Passes()
  {
  }

  lemma HostileTerms(ps: seq<Pass>)
    requires BlockedRuns.Hostile(CASE, ps)
    ensures Terms(ps, 0)
  {
  }

  /** The counts before each pass: none Ready until the last pass, one after it. */
  function Counts(n: nat): seq<int> {
    seq(n + 2, i => if i <= n then 0 else 1)
  }

  /** One new node is Ready, two nodes are completed by replacement, and no pass has allowed more than one in flight. */
  lemma OneNewForTwo() returns (ps: seq<Pass>, counts: seq<int>)
    ensures AllReplace(ps) && AtMost(ps, 1) && Growing(ps, counts) && counts[|ps|] - counts[0] == 1
    ensures CountIn(Run(ps).status.nodes, {NodeCompleted}) == 2
  {
    var now: int;
    ps, now := ToDraining();
    ps := ToAwaiting(ps, now);
    var p := Go(now, 1);
    CompletesBoth(p, Run(ps).status, now);
    RunOn(ps, p);
    counts := Counts(|ps|);
    Accounts(ps, p, counts);
    ps := ps + [p];
  }

  lemma Accounts(ps: seq<Pass>, p: Pass, counts: seq<int>)
    requires Terms(ps, 0) && p.spec == SPEC && p.policy == Some(CASE.raw) && NeverShrinks(p.answers, 0, 1)
    requires counts == Counts(|ps|)
    ensures AllReplace(ps + [p]) && AtMost(ps + [p], 1) && Growing(ps + [p], counts)
  {
  }
}
