/** For every request that passes its checks there is a run on which all its nodes block: each is cordoned and has a pod
  * that cannot be evicted. Nothing fails and nothing is retried. */
module BlockedRuns {
  import opened Api
  import opened NodeMachine
  import opened Passes
  import opened Invariant
  import opened PassFacts
  import opened StateMachine
  import opened Cordons
  import opened Caps
  import opened Progress
  import Approval
  import Gates
  import Journal
  import Lifecycle
  import Planner
  import Policy
  import Preflight
  import PreflightSound

  /** Every call succeeds, and one pod cannot be evicted. */
  const REFUSES := NodeAnswer(NodeFound(false, ""), true, Some(EvictResult(1, 1, 0, BlockPDB)), true, Some(0), NoMachine, Some(false))

  /** What the run is about: policy, spec and target, and the global timeout the configuration gives. */
  datatype Case = Case(raw: PolicySpec, spec: RequestSpec, target: Target, limit: int) {
    /** The request passes its checks, nothing in its spec keeps it from executing, and it leaves its timeouts to the
      * configuration. */
    predicate Passes() {
      && MayExecute(raw, spec) && spec.drainTimeout <= 0 && spec.globalTimeout <= 0
      && target.nodes != [] && target.missing == []
      && !Preflight.TooManyUnavailable(Terms(), spec, target)
    }

    function Terms(): PolicySpec {
      Policy.WithDefaults(raw)
    }

    /** The pass of the run at the given time. */
    function At(now: int): Pass {
      Pass(spec, Some(raw), Config(1, limit, 1), now, Some(target), false, false, false, Some(true), Some(0),
           seq(|target.nodes|, _ => REFUSES), true)
    }

    function Planned(): Plan {
      PlanFor(At(0), Terms(), target)
    }
  }

  /** Execute mode, neither paused nor cancelled, and the drain gate is clear. */
  predicate MayExecute(raw: PolicySpec, spec: RequestSpec) {
    && spec.mode == ModeExecute && !spec.pause && !spec.cancel
    && DrainVerdict(raw, spec) in {Approved, NotRequired}
  }

  function DrainVerdict(raw: PolicySpec, spec: RequestSpec): Verdict {
    Approval.Evaluate(Policy.ApprovalFor(Policy.WithDefaults(raw), spec), spec.gates, GateDrain)
  }

  // ----- to execution -----

  lemma SamePlan(c: Case, now: int)
    ensures PlanFor(c.At(now), c.Terms(), c.target) == c.Planned()
  {
  }

  lemma Routes(p: Pass, s: Status, verdict: Verdict)
    requires verdict in {Approved, NotRequired}
    ensures RouteAtDrainGate(p, s, verdict).mem == s.(phase := PhasePlanned) && RouteAtDrainGate(p, s, verdict).wrote
  {
  }

  /** A request that is checked and cleared is planned. */
  lemma Admits(p: Pass, pol: PolicySpec, s: Status, t: Target, plan: Plan)
    requires p.spec.mode == ModeExecute && VerdictAt(p, pol, GateDrain) in {Approved, NotRequired}
    requires !p.preflightError && !PreflightFails(p, pol, t) && !p.planError && plan == PlanFor(p, pol, t)
    ensures Admit(p, pol, s, t).mem == s.(phase := PhasePlanned, plan := Some(plan)) && Admit(p, pol, s, t).wrote
  {
    Routes(p, s.(plan := Some(plan)), VerdictAt(p, pol, GateDrain));
  }

  lemma Validated(c: Case, now: int)
    requires c.Passes()
    ensures var s := NEW_STATUS.(phase := PhasePending);
            var o := Reconcile(c.At(now), s);
            o.mem == s.(phase := PhasePlanned, plan := Some(c.Planned())) && o.wrote
  {
    var p, s := c.At(now), NEW_STATUS.(phase := PhaseValidating);
    SamePlan(c, now);
    Admits(p, c.Terms(), s, c.target, c.Planned());
    assert Resolve(p, c.Terms(), s) == Admit(p, c.Terms(), s, c.target);
  }

  lemma StartIs(c: Case, now: int, s: Status, plan: Plan)
    requires c.Passes() && s.phase == PhasePlanned && plan == c.Planned()
    ensures Reconcile(c.At(now), s) == Begin(c.At(now), s.(plan := Some(plan)), plan)
  {
    SamePlan(c, now);
    StartIsBegin(c.At(now), c.Terms(), s, plan);
  }

  /** The plan covers the target with pending records. */
  ghost predicate PlanCovers(plan: Plan, t: Target) {
    var ns := InitNodes(plan.batches);
    && multiset(NodeNames(ns)) == multiset(Planner.Names(t.nodes)) && |ns| == |t.nodes|
    && forall i | 0 <= i < |ns| :: ns[i].phase == NodePending
  }

  lemma PlannedCovers(c: Case)
    ensures PlanCovers(c.Planned(), c.target)
  {
    PlanRecords(c.At(0), c.Terms(), c.target);
  }

  // ----- trying in vain -----

  const TRYING := {NodePending, NodeCordoning, NodeDraining, NodeBlocked}

  /** The records are on the way to being blocked; the next pass is at now. */
  ghost predicate RecordsTry(ns: seq<NodeRec>, now: int) {
    && ns != []
    && (forall i | 0 <= i < |ns| :: ns[i].phase in TRYING)
    && (forall i | 0 <= i < |ns| && ns[i].phase in IN_FLIGHT :: ns[i].startTime.Some? && ns[i].startTime.value + 2 <= now)
  }

  /** The request executes the plan since the given time, and its records try. */
  ghost predicate Tries(plan: Plan, s: Status, start: int, now: int) {
    && StatusOk(s) && s.phase == PhaseExecuting && s.startTime == Some(start) && s.plan == Some(plan)
    && RecordsTry(s.nodes, now)
  }

  lemma StepTries(d: StepContext, r: NodeRec, fl: int)
    requires RecOk(r) && r.phase in TRYING && d.drainTimeout == 1
    requires r.phase in IN_FLIGHT ==> r.startTime.Some? && r.startTime.value + 2 <= d.now
    ensures var r' := Step(d, REFUSES, r, fl).rec;
            && r'.phase in TRYING
            && (r'.phase in IN_FLIGHT ==> r'.startTime.Some? && r'.startTime.value <= d.now)
            && (r.phase == NodeDraining ==> r'.phase == NodeBlocked)
  {
  }

  /** A pass whose answers for the records all refuse, in time and with the window open. */
  ghost predicate Refusing(p: Pass, size: nat) {
    && p.policy.Some? && p.windows == Some(true) && ContextOf(p, PolicyOf(p)).drainTimeout == 1
    && Budget(p, PolicyOf(p)) >= 1
    && forall i | 0 <= i < size :: AnswerAt(p.answers, i) == REFUSES
  }

  lemma CaseRefuses(c: Case, now: int)
    requires c.Passes()
    ensures Refusing(c.At(now), |c.target.nodes|)
  {
  }

  lemma BatchTries(p: Pass, s: Status)
    requires StatusOk(s) && RecordsTry(s.nodes, p.now) && RunsBatch(p, s) && Refusing(p, |s.nodes|)
    ensures RecordsTry(NodesAfter(p, s), p.now + 2)
  {
    var ns := NodesAfter(p, s);
    var d, b := ContextOf(p, PolicyOf(p)), CurrentBatch(s.nodes);
    SteppedOnce(d, p.answers, b, s.nodes, CountIn(s.nodes, IN_FLIGHT), |s.nodes|);
    forall i | 0 <= i < |ns|
      ensures ns[i].phase in TRYING
      ensures ns[i].phase in IN_FLIGHT ==> ns[i].startTime.Some? && ns[i].startTime.value + 2 <= p.now + 2
    {
      RecordTries(p, d, b, s.nodes[i], ns[i], i);
    }
  }

  lemma RecordTries(p: Pass, d: StepContext, b: int, r: NodeRec, r': NodeRec, i: nat)
    requires Stepped(d, p.answers, b, r, r', i) && AnswerAt(p.answers, i) == REFUSES
    requires RecOk(r) && r.phase in TRYING && d.drainTimeout == 1
    requires r.phase in IN_FLIGHT ==> r.startTime.Some? && r.startTime.value + 2 <= d.now
    ensures r'.phase in TRYING
    ensures r'.phase in IN_FLIGHT ==> r'.startTime.Some? && r'.startTime.value <= d.now
  {
    if r' != r {
      var fl :| r' == Step(d, AnswerAt(p.answers, i), r, fl).rec;
      StepTries(d, r, fl);
    }
  }

  lemma VisitsBatch(c: Case, plan: Plan, s: Status, start: int, now: int)
    requires c.Passes() && Tries(plan, s, start, now) && now <= start + c.limit && c.limit > 0
    requires CurrentBatch(s.nodes) >= 0
    ensures RunsBatch(c.At(now), s)
  {
    CountBounds(s.nodes, {NodeFailed});
    CountBounds(s.nodes, {NodePostCheck});
  }

  lemma BatchMoves(p: Pass, s: Status)
    requires StatusOk(s) && RecordsTry(s.nodes, p.now) && RunsBatch(p, s) && Refusing(p, |s.nodes|)
    ensures RankSum(NodesAfter(p, s)) < RankSum(s.nodes)
  {
    var d := ContextOf(p, PolicyOf(p));
    forall i | 0 <= i < |s.nodes|
      ensures Answering(AnswerAt(p.answers, i)) && Stirs(d, AnswerAt(p.answers, i), s.nodes[i])
    {
      StepTries(d, s.nodes[i], 0);
    }
    NoStall(p, s);
  }

  lemma LoopNoError(p: Pass, s: Status)
    requires Refusing(p, |s.nodes|)
    ensures !RunBatch(p, PolicyOf(p), s).err
  {
    LoopAnswers(ContextOf(p, PolicyOf(p)), p.answers, CurrentBatch(s.nodes), s.nodes, CountIn(s.nodes, IN_FLIGHT), |s.nodes|);
  }

  /** All nodes are blocked, and so is the request. */
  ghost predicate AllStuck(plan: Plan, s: Status, start: int) {
    && StatusOk(s) && s.phase == PhaseBlocked && s.plan == Some(plan) && s.startTime == Some(start)
    && s.nodes != [] && forall i | 0 <= i < |s.nodes| :: s.nodes[i].phase == NodeBlocked
  }

  /** What the visit leaves: a request that still tries, or one with all its nodes blocked. */
  lemma AfterTrying(p: Pass, plan: Plan, s: Status, o: LoopOut, start: int, now: int)
    requires Tries(plan, s, start, now) && RecordsTry(o.nodes, now + 2) && !o.err
    requires StatusOk(AfterBatch(p, s, o).mem)
    ensures var m := AfterBatch(p, s, o).mem;
            if CurrentBatch(o.nodes) >= 0 then Tries(plan, m, start, now + 2) else AllStuck(plan, m, start)
  {
    var m := AfterBatch(p, s, o).mem;
    VisitLeaves(p, s, o);
    if CurrentBatch(o.nodes) < 0 {
      OnlyBlockedLeft(o.nodes, now);
      AllBlockedEnds(p, s.(nodes := o.nodes));
    }
  }

  lemma VisitLeaves(p: Pass, s: Status, o: LoopOut)
    requires !o.err
    ensures var m := AfterBatch(p, s, o).mem;
            && m.nodes == o.nodes && m.plan == s.plan && m.startTime == s.startTime
            && (if CurrentBatch(o.nodes) >= 0 then m.phase == s.phase
                else m == CompleteExecution(p, s.(nodes := o.nodes)).mem)
  {
  }

  lemma AllBlockedEnds(p: Pass, s: Status)
    requires s.nodes != [] && forall i | 0 <= i < |s.nodes| :: s.nodes[i].phase == NodeBlocked
    ensures CompleteExecution(p, s).mem.phase == PhaseBlocked
  {
    CountBounds(s.nodes, {NodeFailed});
    CountBounds(s.nodes, {NodeBlocked});
    assert s.nodes[0].phase == NodeBlocked;
  }

  lemma {:induction false} OnlyBlockedLeft(ns: seq<NodeRec>, now: int)
    requires RecordsTry(ns, now + 2) && CurrentBatch(ns) < 0 && forall i | 0 <= i < |ns| :: ns[i].batch >= 0
    ensures forall i | 0 <= i < |ns| :: ns[i].phase == NodeBlocked
  {
    CurrentBatchIsLeast(ns);
  }

  /** No call returns a node or sees it gone. */
  ghost predicate Kept(tr: seq<Event>) {
    forall e | e in tr :: !e.UncordonCall? && !e.GoneSeen?
  }

  lemma KeepsCalls(es: seq<Event>, ns: seq<NodeRec>)
    requires forall e | e in es :: Announced(e, ns) && !(e.UncordonCall? && e.abort)
    requires forall i | 0 <= i < |ns| :: ns[i].phase in TRYING
    ensures Kept(es)
  {
  }

  lemma KeepsPass(p: Pass, s: Status)
    requires StatusOk(s) && !Aborts(p, s)
    requires forall i | 0 <= i < |s.nodes| :: s.nodes[i].phase in TRYING
    ensures Kept(Reconcile(p, s).events)
  {
    CallsAreWrittenAhead(p, s);
    Gates.PassEvents(p, s);
    KeepsCalls(Reconcile(p, s).events, s.nodes);
  }

  /** What a pass over a trying request leads to. */
  ghost predicate TriedOn(plan: Plan, s: Status, o: Out, start: int, now: int) {
    && o.wrote && RankSum(o.mem.nodes) < RankSum(s.nodes) && |o.mem.nodes| == |s.nodes|
    && if CurrentBatch(o.mem.nodes) >= 0 then Tries(plan, o.mem, start, now + 2) else AllStuck(plan, o.mem, start)
  }

  lemma TryPass(p: Pass, plan: Plan, s: Status, start: int)
    requires Tries(plan, s, start, p.now) && RunsBatch(p, s) && Refusing(p, |s.nodes|)
    ensures TriedOn(plan, s, Reconcile(p, s), start, p.now)
  {
    BatchTries(p, s);
    BatchMoves(p, s);
    LoopNoError(p, s);
    PassKeepsStatus(p, s);
    PassNodes(p, s);
    VisitIs(p, s);
    AfterTrying(p, plan, s, RunBatch(p, PolicyOf(p), s), start, p.now);
  }

  lemma TryOnce(c: Case, plan: Plan, s: Status, start: int, now: int)
    requires c.Passes() && Tries(plan, s, start, now) && |s.nodes| == |c.target.nodes|
    requires now <= start + c.limit && c.limit > 0 && CurrentBatch(s.nodes) >= 0
    ensures TriedOn(plan, s, Reconcile(c.At(now), s), start, now) && Kept(Reconcile(c.At(now), s).events)
  {
    var p := c.At(now);
    VisitsBatch(c, plan, s, start, now);
    CaseRefuses(c, now);
    TryPass(p, plan, s, start);
    KeepsPass(p, s);
  }

  lemma VisitIs(p: Pass, s: Status)
    requires RunsBatch(p, s)
    ensures Reconcile(p, s).mem == AfterBatch(p, s, RunBatch(p, PolicyOf(p), s)).mem && Reconcile(p, s).wrote
    ensures NodesAfter(p, s) == RunBatch(p, PolicyOf(p), s).nodes
  {
  }

  // ----- the run -----

  /** Every two units of time a pass of the case, none of them a retry; no call has returned a node. */
  ghost predicate Hostile(c: Case, ps: seq<Pass>) {
    (forall i | 0 <= i < |ps| :: ps[i] == c.At(2 * i)) && RetryFree(ps) && Kept(Run(ps).trace)
  }

  lemma HostileOn(c: Case, ps: seq<Pass>, p: Pass)
    requires Hostile(c, ps) && Run(ps).status.phase != PhaseBlocked
    requires p == c.At(2 * |ps|) && Kept(Reconcile(p, Run(ps).status).events)
    ensures Hostile(c, ps + [p])
    ensures Run(ps + [p]) == Next(Run(ps), p)
  {
    var more := ps + [p];
    assert more[..|ps|] == ps;
  }

  /** Room for the passes to come before the global timeout. */
  predicate InTimeFor(c: Case, passes: nat, ns: seq<NodeRec>) {
    2 * passes + 2 * RankSum(ns) <= 4 + c.limit
  }

  lemma Exhaust(c: Case, plan: Plan, ps: seq<Pass>) returns (all: seq<Pass>)
    requires c.Passes() && c.limit > 0 && Hostile(c, ps) && |Run(ps).status.nodes| == |c.target.nodes|
    requires Tries(plan, Run(ps).status, 4, 2 * |ps|) && CurrentBatch(Run(ps).status.nodes) >= 0
    requires InTimeFor(c, |ps|, Run(ps).status.nodes)
    ensures Hostile(c, all) && AllStuck(plan, Run(all).status, 4) && 2 * |all| <= 4 + c.limit
    decreases RankSum(Run(ps).status.nodes)
  {
    var s, p := Run(ps).status, c.At(2 * |ps|);
    TryOnce(c, plan, s, 4, 2 * |ps|);
    HostileOn(c, ps, p);
    all := ps + [p];
    if CurrentBatch(Run(all).status.nodes) >= 0 {
      all := Exhaust(c, plan, all);
    }
  }

  lemma {:induction false} RankOfPending(ns: seq<NodeRec>, now: int)
    requires ns != [] && forall i | 0 <= i < |ns| :: ns[i].phase == NodePending
    ensures RecordsTry(ns, now) && RankSum(ns) <= 6 * |ns|
  {
    RankSumBound(ns);
  }

  /** A pass with no records, which does not end the request, makes no call on a node. */
  lemma QuietPass(p: Pass, s: Status)
    requires StatusOk(s) && s.nodes == [] && !IsTerminal(Reconcile(p, s).mem.phase)
    ensures Kept(Reconcile(p, s).events) && StatusOk(Reconcile(p, s).mem)
  {
    PassKeepsStatus(p, s);
    KeepsPass(p, s);
  }

  /** Three passes put the request into execution. */
  lemma BeginRun(c: Case, plan: Plan) returns (ps: seq<Pass>)
    requires c.Passes() && plan == c.Planned()
    ensures Hostile(c, ps) && |ps| == 3 && |Run(ps).status.nodes| == |c.target.nodes|
    ensures Tries(plan, Run(ps).status, 4, 6) && CurrentBatch(Run(ps).status.nodes) >= 0
    ensures RankSum(Run(ps).status.nodes) <= 6 * |c.target.nodes|
  {
    var two := ToPlanned(c);
    var s, p := Run(two).status, c.At(4);
    StartIs(c, 4, s, plan);
    QuietPass(p, s);
    HostileOn(c, two, p);
    PlannedCovers(c);
    Begun(p, s, plan, c.target);
    ps := two + [p];
  }

  lemma ToPlanned(c: Case) returns (ps: seq<Pass>)
    requires c.Passes()
    ensures Hostile(c, ps) && |ps| == 2
    ensures Run(ps).status == NEW_STATUS.(phase := PhasePlanned, plan := Some(c.Planned())) && StatusOk(Run(ps).status)
  {
    var one := [] + [c.At(0)];
    StatusAlwaysOk([]);
    QuietPass(c.At(0), NEW_STATUS);
    HostileOn(c, [], c.At(0));
    Validated(c, 2);
    QuietPass(c.At(2), NEW_STATUS.(phase := PhasePending));
    HostileOn(c, one, c.At(2));
    ps := one + [c.At(2)];
  }

  lemma Begun(p: Pass, s: Status, plan: Plan, t: Target)
    requires PlanCovers(plan, t) && t.nodes != [] && s.nodes == [] && s.startTime == None
    requires StatusOk(Begin(p, s.(plan := Some(plan)), plan).mem)
    ensures var m := Begin(p, s.(plan := Some(plan)), plan).mem;
            && Tries(plan, m, p.now, p.now + 2) && CurrentBatch(m.nodes) >= 0
            && |m.nodes| == |t.nodes| && RankSum(m.nodes) <= 6 * |t.nodes|
  {
    var m := Begin(p, s.(plan := Some(plan)), plan).mem;
    BeginIs(p, s.(plan := Some(plan)), plan, m);
    RankOfPending(m.nodes, p.now + 2);
    CurrentBatchIsLeast(m.nodes);
  }

  lemma BeginIs(p: Pass, s: Status, plan: Plan, m: Status)
    requires s.nodes == [] && s.startTime == None && m == Begin(p, s, plan).mem
    ensures m.nodes == InitNodes(plan.batches) && m.startTime == Some(p.now) && m.phase == PhaseExecuting && m.plan == s.plan
  {
  }

  /** When all its nodes are blocked, the whole target is cordoned. */
  lemma TargetCordoned(c: Case, plan: Plan, ps: seq<Pass>)
    requires plan == c.Planned() && Hostile(c, ps) && AllStuck(plan, Run(ps).status, 4)
    ensures PreflightSound.TargetNames(c.target.nodes) <= Run(ps).cordoned
  {
    var ns := Run(ps).status.nodes;
    PlannedCovers(c);
    Lifecycle.SameNames(ns, InitNodes(plan.batches));
    CordonedByTrace(ps);
    Journal.RunAlwaysOk(ps);
    forall n | n in PreflightSound.TargetNames(c.target.nodes) ensures n in Run(ps).cordoned {
      var j :| 0 <= j < |c.target.nodes| && c.target.nodes[j].name == n;
      var i := RecordOf(ns, c.target.nodes, j);
      assert Journal.Earned(ns[i], Run(ps).trace);
      KeptCordon(Run(ps).trace, n);
    }
  }

  lemma RecordOf(ns: seq<NodeRec>, ts: seq<TargetNode>, j: nat) returns (i: nat)
    requires multiset(NodeNames(ns)) == multiset(Planner.Names(ts)) && j < |ts|
    ensures i < |ns| && ns[i].node == ts[j].name
  {
    assert Planner.Names(ts)[j] == ts[j].name;
    assert ts[j].name in multiset(NodeNames(ns));
    i :| 0 <= i < |ns| && NodeNames(ns)[i] == ts[j].name;
  }

  /** Every request that passes its checks has such a run, given a long enough global timeout. */
  lemma BlockedRun(c: Case) returns (ps: seq<Pass>)
    requires c.Passes() && c.limit >= 2 + 12 * |c.target.nodes|
    ensures Hostile(c, ps) && AllStuck(c.Planned(), Run(ps).status, 4) && 2 * |ps| <= 4 + c.limit
    ensures PreflightSound.TargetNames(c.target.nodes) <= Run(ps).cordoned
  {
    var plan := c.Planned();
    ps := BeginRun(c, plan);
    ps := Exhaust(c, plan, ps);
    TargetCordoned(c, plan, ps);
  }

  // ----- a retry of nodes of several batches -----

  lemma {:induction false} HasBatch(batches: seq<Batch>, k: nat) returns (i: nat)
    requires k < |batches| && batches[k].nodes != []
    ensures i < |InitNodes(batches)| && InitNodes(batches)[i].batch == batches[k].index
  {
    var n := |batches| - 1;
    if k == n {
      i := |InitNodes(batches[..n])|;
    } else {
      i := HasBatch(batches[..n], k);
    }
  }

  lemma TwoBatches(c: Case, plan: Plan) returns (i: nat, j: nat)
    requires plan == c.Planned() && |plan.batches| >= 2
    ensures var ns := InitNodes(plan.batches); i < |ns| && j < |ns| && ns[i].batch != ns[j].batch
  {
    var p := c.At(0);
    Planner.BatchesPartition(plan.strategy, c.target.nodes, p.spec.batchSize, Policy.Concurrency(c.Terms(), p.spec.maxConcurrent));
    i := HasBatch(plan.batches, 0);
    j := HasBatch(plan.batches, 1);
  }

  lemma RetriesStuck(c: Case, plan: Plan, s: Status, now: int)
    requires c.Passes() && AllStuck(plan, s, 4) && now <= 4 + c.limit && c.limit > 0
    ensures Retries(c.At(now), s)
  {
    CountBounds(s.nodes, {NodeBlocked});
    assert s.nodes[0].phase == NodeBlocked;
  }

  lemma MixesBatches(c: Case, plan: Plan, p: Pass, s: Status)
    requires plan == c.Planned() && |plan.batches| >= 2 && AllStuck(plan, s, 4) && Retries(p, s)
    ensures !OneBatch(NodesAfter(p, s)) && !OneBatch(Reconcile(p, s).mem.nodes)
  {
    var i, j := TwoBatches(c, plan);
    assert s.nodes[i].batch != s.nodes[j].batch;
    RetryKeepsOneBatchIff(p, s);
    PassNodes(p, s);
  }

  /** Whenever the plan has several batches there is a run whose retry puts nodes of two batches in flight at once. */
  lemma RetryMixesBatches(c: Case) returns (ps: seq<Pass>, p: Pass)
    requires c.Passes() && c.limit >= 2 + 12 * |c.target.nodes| && |c.Planned().batches| >= 2
    ensures Hostile(c, ps) && p == c.At(2 * |ps|) && Retries(p, Run(ps).status)
    ensures OneBatch(Run(ps).status.nodes) && !OneBatch(Next(Run(ps), p).status.nodes)
  {
    var plan := c.Planned();
    ps := BlockedRun(c);
    p := c.At(2 * |ps|);
    RetriesStuck(c, plan, Run(ps).status, 2 * |ps|);
    OneBatchAtATime(ps);
    MixesBatches(c, plan, p, Run(ps).status);
    RetryStored(p, Run(ps));
  }

  lemma RetryStored(p: Pass, w: World)
    requires Retries(p, w.status) && p.writeOk
    ensures Next(w, p).status == Reconcile(p, w.status).mem
  {
  }

  lemma TwoOf(keys: seq<string>, x: string, y: string)
    requires x in keys && y in keys && x != y
    ensures |keys| >= 2
  {
  }

  lemma TwoKeys(g: Planner.Grouping, nodes: seq<TargetNode>, a: nat, b: nat)
    requires a < |nodes| && b < |nodes| && Planner.KeyOf(g, nodes[a]) != Planner.KeyOf(g, nodes[b])
    ensures |Planner.GroupAll(g, nodes)| >= 2
  {
    var keys := Planner.GroupKeys(g, nodes);
    TwoOf(keys, Planner.KeyOf(g, nodes[a]), Planner.KeyOf(g, nodes[b]));
  }

  /** A target that spans two zones has a plan of several batches by zone. */
  lemma ZonesMakeBatches(c: Case, a: nat, b: nat)
    requires c.spec.strategy == StrategyByZone && a < |c.target.nodes| && b < |c.target.nodes|
    requires Planner.KeyOf(Planner.ByZone, c.target.nodes[a]) != Planner.KeyOf(Planner.ByZone, c.target.nodes[b])
    ensures |c.Planned().batches| >= 2
  {
    TwoKeys(Planner.ByZone, c.target.nodes, a, b);
    assert c.Planned().batches == Planner.GroupAll(Planner.ByZone, c.target.nodes);
  }

  const TWO_ZONES := [TargetNode("a", false, "north", None), TargetNode("b", false, "south", None)]

  lemma TwoZonesPass(c: Case)
    requires c.raw == PolicySpec(1, 0, 0, 1, ApprovalAuto) && c.target == Target(TWO_ZONES, [], TWO_ZONES)
    requires c.spec == RequestSpec(ModeExecute, StrategyByZone, 1, 1, 0, 0, true, ApprovalAuto, [], false, false, None)
    ensures c.Passes()
  {
  }

  /** A request by zone for two nodes of different zones drains, after a retry, both zones at once. */
  lemma TwoZonesAtOnce() returns (c: Case, ps: seq<Pass>, p: Pass)
    ensures c.Passes() && c.spec.strategy == StrategyByZone && |c.target.nodes| == 2
    ensures c.target.nodes[0].zone != c.target.nodes[1].zone
    ensures Hostile(c, ps) && p == c.At(2 * |ps|) && Retries(p, Run(ps).status)
    ensures OneBatch(Run(ps).status.nodes) && !OneBatch(Next(Run(ps), p).status.nodes)
  {
    var spec := RequestSpec(ModeExecute, StrategyByZone, 1, 1, 0, 0, true, ApprovalAuto, [], false, false, None);
    c := Case(PolicySpec(1, 0, 0, 1, ApprovalAuto), spec, Target(TWO_ZONES, [], TWO_ZONES), 26);
    TwoZonesPass(c);
    ZonesMakeBatches(c, 0, 1);
    ps, p := RetryMixesBatches(c);
  }
}
