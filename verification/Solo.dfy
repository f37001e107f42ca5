/** Runs of a request for a single node, one pass at a time. */
module Solo {
  import opened Api
  import opened NodeMachine
  import opened Passes
  import opened Invariant
  import opened PassFacts
  import opened Cordons
  import Planner

  const POLICY := PolicySpec(1, 0, 0, 1, ApprovalAuto)
  const NODE := TargetNode("node", false, "", None)
  const TARGET := Target([NODE], [], [NODE])

  /** One pod that cannot be evicted. */
  const STAYS := EvictResult(1, 1, 0, BlockPDB)

  const EMPTY := EvictResult(0, 0, 0, NoReason)

  /** Every call succeeds; the node has no Machine. */
  function Answer(evict: EvictResult): NodeAnswer {
    NodeAnswer(NodeFound(false, ""), true, Some(evict), true, Some(0), NoMachine, Some(false))
  }

  function At(spec: RequestSpec, now: int, others: nat, evict: EvictResult): Pass {
    Pass(spec, Some(POLICY), Config(10, 100, 10), now, Some(TARGET), false, false, false, Some(true), Some(others),
         [Answer(evict)], true)
  }

  /** An executing request that no drain gate, pause or cancel holds up. */
  predicate Plain(spec: RequestSpec) {
    && spec.mode == ModeExecute && !spec.pause && !spec.cancel && spec.drainTimeout == 0 && spec.globalTimeout == 0
    && spec.maxConcurrent == 1 && spec.approval in {ApprovalAuto, ApprovalManualBeforeUncordon} && spec.TargetVersion() == ""
  }

  /** The request has executed since the given time, and its one node is in the phase, since then too if in flight. */
  ghost predicate Working(s: Status, ph: NodePhase, since: int) {
    && StatusOk(s) && s.phase == PhaseExecuting && s.startTime == Some(since)
    && |s.nodes| == 1 && s.nodes[0].phase == ph && s.nodes[0].node == NODE.name
    && (ph in IN_FLIGHT ==> s.nodes[0].startTime == Some(since))
  }

  lemma {:induction false} CountOne(ns: seq<NodeRec>, phases: set<NodePhase>)
    requires |ns| == 1
    ensures CountIn(ns, phases) == if ns[0].phase in phases then 1 else 0
  {
    assert ns[..0] == [];
  }

  lemma {:induction false} BatchOne(ns: seq<NodeRec>)
    requires |ns| == 1 && ns[0].batch >= 0
    ensures CurrentBatch(ns) == if IsNodeTerminal(ns[0].phase) then -1 else ns[0].batch
  {
    assert ns[..0] == [];
  }

  // ----- beginning -----

  lemma Validated(spec: RequestSpec, now: int, others: nat, evict: EvictResult)
    requires Plain(spec)
    ensures var o := Reconcile(At(spec, now, others, evict), NEW_STATUS.(phase := PhasePending));
            o.mem.phase == PhasePlanned && o.wrote && o.mem.nodes == [] && o.mem.startTime == None
  {
  }

  lemma StartIs(p: Pass, s: Status)
    requires p == At(p.spec, p.now, 0, EMPTY).(others := p.others, answers := p.answers)
    requires Plain(p.spec) && s.phase == PhasePlanned
    ensures var plan := PlanFor(p, PolicyOf(p), TARGET);
            Reconcile(p, s) == Begin(p, s.(plan := Some(plan)), plan)
  {
    StartIsBegin(p, PolicyOf(p), s, PlanFor(p, PolicyOf(p), TARGET));
  }

  lemma Started(spec: RequestSpec, now: int, others: nat, evict: EvictResult, s: Status)
    requires Plain(spec) && StatusOk(s) && s.phase == PhasePlanned && s.startTime == None
    ensures Working(Reconcile(At(spec, now, others, evict), s).mem, NodePending, now)
    ensures Reconcile(At(spec, now, others, evict), s).wrote
  {
    var p := At(spec, now, others, evict);
    var plan := PlanFor(p, PolicyOf(p), TARGET);
    PlanRecords(p, PolicyOf(p), TARGET);
    PassKeepsStatus(p, s);
    StartIs(p, s);
    OnlyTheNode(InitNodes(plan.batches));
    Begun(p, s.(plan := Some(plan)), plan);
  }

  lemma Begun(p: Pass, s: Status, plan: Plan)
    requires s.nodes == [] && s.startTime == None && StatusOk(Begin(p, s, plan).mem)
    requires |InitNodes(plan.batches)| == 1
    requires InitNodes(plan.batches)[0].phase == NodePending && InitNodes(plan.batches)[0].node == NODE.name
    ensures Working(Begin(p, s, plan).mem, NodePending, p.now) && Begin(p, s, plan).wrote
  {
  }

  lemma OnlyTheNode(ns: seq<NodeRec>)
    requires |ns| == 1 && multiset(NodeNames(ns)) == multiset(Planner.Names(TARGET.nodes))
    ensures ns[0].node == NODE.name
  {
    assert NodeNames(ns) == [ns[0].node];
    assert Planner.Names(TARGET.nodes) == [NODE.name];
    assert ns[0].node in multiset([NODE.name]);
  }

  /** From nothing to execution in three passes. */
  lemma Begins(spec: RequestSpec, now: int, others: nat, evict: EvictResult)
    requires Plain(spec)
    ensures var p := At(spec, now, others, evict);
            && Next(START, p).status.phase == PhasePending
            && Next(Next(START, p), p).status.phase == PhasePlanned
            && Working(Next(Next(Next(START, p), p), p).status, NodePending, now)
  {
    var p := At(spec, now, others, evict);
    var w1 := Next(START, p);
    var w2 := Next(w1, p);
    StatusAlwaysOk([]);
    PassKeepsStatus(p, START.status);
    Validated(spec, now, others, evict);
    PassKeepsStatus(p, w1.status);
    Started(spec, now, others, evict, w2.status);
  }

  // ----- one visit -----

  /** What the visit of the node does to it. */
  function Visit(p: Pass, s: Status): StepOut
    requires |s.nodes| == 1 && p.policy.Some?
  {
    Step(ContextOf(p, PolicyOf(p)), AnswerAt(p.answers, 0), s.nodes[0], CountIn(s.nodes, IN_FLIGHT))
  }

  lemma VisitOne(p: Pass, s: Status)
    requires RunsBatch(p, s) && |s.nodes| == 1 && s.nodes[0].batch >= 0 && !IsNodeTerminal(s.nodes[0].phase)
    ensures var o := RunBatch(p, PolicyOf(p), s);
            o.nodes == [Visit(p, s).rec] && o.events == Visit(p, s).events && o.err == Visit(p, s).err
  {
    var c, b, fl := ContextOf(p, PolicyOf(p)), CurrentBatch(s.nodes), CountIn(s.nodes, IN_FLIGHT);
    BatchOne(s.nodes);
    assert StepTo(c, p.answers, b, s.nodes, fl, 0) == LoopOut(s.nodes, fl, [], false);
    var st := Visit(p, s);
    assert StepTo(c, p.answers, b, s.nodes, fl, 1) == LoopOut(s.nodes[0 := st.rec], st.inFlight, [] + st.events, st.err);
  }

  /** The pass visits the node of a plain request that works on it, unless it is drained and held. */
  lemma RunsIt(p: Pass, s: Status, since: int)
    requires Plain(p.spec) && p.policy == Some(POLICY) && p.config == Config(10, 100, 10) && p.now <= since + 100
    requires |s.nodes| == 1 && Working(s, s.nodes[0].phase, since) && !IsNodeTerminal(s.nodes[0].phase)
    requires s.nodes[0].phase == NodePostCheck ==> !UncordonHeld(p, PolicyOf(p))
    ensures RunsBatch(p, s)
  {
    CountOne(s.nodes, {NodeFailed});
    CountOne(s.nodes, {NodePostCheck});
    BatchOne(s.nodes);
  }

  lemma VisitIs(p: Pass, s: Status)
    requires RunsBatch(p, s)
    ensures Reconcile(p, s).mem == AfterBatch(p, s, RunBatch(p, PolicyOf(p), s)).mem && Reconcile(p, s).wrote
  {
  }

  /** What becomes of the request after the visit of its one node. */
  lemma AfterOne(p: Pass, s: Status, o: LoopOut)
    requires |o.nodes| == 1 && o.nodes[0].batch >= 0 && !o.err && s.phase == PhaseExecuting && s.ending.Running?
    ensures var m := AfterBatch(p, s, o).mem;
            && m.nodes == o.nodes && m.startTime == s.startTime
            && (o.nodes[0].phase != NodeFailed ==> m.ending in {Running, Finished})
            && (!IsNodeTerminal(o.nodes[0].phase) ==> m.phase == PhaseExecuting)
            && (o.nodes[0].phase == NodeBlocked ==> m.phase == PhaseBlocked)
            && (o.nodes[0].phase == NodeFailed ==> m.phase == PhaseFailed)
  {
    CountOne(o.nodes, {NodeFailed});
    CountOne(o.nodes, {NodeBlocked});
    BatchOne(o.nodes);
  }

  lemma Visited(p: Pass, s: Status)
    requires StatusOk(s) && RunsBatch(p, s) && |s.nodes| == 1 && !IsNodeTerminal(s.nodes[0].phase) && !Visit(p, s).err
    ensures var o, r := Reconcile(p, s), Visit(p, s).rec;
            && StatusOk(o.mem) && o.wrote && o.mem.nodes == [r] && o.mem.startTime == s.startTime
            && (r.phase != NodeFailed ==> !Aborts(p, s))
            && (!IsNodeTerminal(r.phase) ==> o.mem.phase == PhaseExecuting)
            && (r.phase == NodeBlocked ==> o.mem.phase == PhaseBlocked)
            && (r.phase == NodeFailed ==> o.mem.phase == PhaseFailed)
  {
    PassKeepsStatus(p, s);
    VisitOne(p, s);
    VisitIs(p, s);
    StepKeepsRec(ContextOf(p, PolicyOf(p)), AnswerAt(p.answers, 0), s.nodes[0], CountIn(s.nodes, IN_FLIGHT));
    AfterOne(p, s, RunBatch(p, PolicyOf(p), s));
  }

  /** The visit's own calls are all that changes the cluster, unless the pass aborts. */
  lemma {:induction false} VisitEffects(p: Pass, s: Status, cordoned: set<string>)
    requires StatusOk(s) && RunsBatch(p, s) && |s.nodes| == 1 && !IsNodeTerminal(s.nodes[0].phase)
    requires !Aborts(p, s) || !Releases(p.spec)
    ensures Effects(cordoned, Reconcile(p, s).events) == Effects(cordoned, Visit(p, s).events)
    ensures Reconcile(p, s).events == Judgement(p, s) + Visit(p, s).events
  {
    VisitOne(p, s);
    PassCalls(p, s);
    JudgementHasNoEffect(p, s, cordoned);
    EffectsConcat(cordoned, Judgement(p, s), BatchCalls(p, s));
    assert Reconcile(p, s).events == Judgement(p, s) + BatchCalls(p, s);
  }

  /** The world after a stored visit without error that fails no node it would have to return. */
  lemma NextVisited(w: World, p: Pass)
    requires StatusOk(w.status) && RunsBatch(p, w.status) && |w.status.nodes| == 1 && !IsNodeTerminal(w.status.nodes[0].phase)
    requires !Visit(p, w.status).err && p.writeOk && (Visit(p, w.status).rec.phase == NodeFailed ==> !Releases(p.spec))
    ensures var w', v := Next(w, p), Visit(p, w.status);
            && StatusOk(w'.status) && w'.status.nodes == [v.rec] && w'.status.startTime == w.status.startTime
            && (!IsNodeTerminal(v.rec.phase) ==> w'.status.phase == PhaseExecuting)
            && (v.rec.phase == NodeFailed ==> w'.status.phase == PhaseFailed)
            && w'.trace == w.trace + (Judgement(p, w.status) + v.events)
            && w'.cordoned == Effects(w.cordoned, v.events)
  {
    Visited(p, w.status);
    VisitEffects(p, w.status, w.cordoned);
  }

  // ----- the moves of the node -----

  lemma VisitStarts(spec: RequestSpec, now: int, evict: EvictResult, s: Status)
    requires Plain(spec) && Working(s, NodePending, now)
    ensures var v := Visit(At(spec, now, 0, evict), s);
            !v.err && v.rec.phase == NodeCordoning && v.rec.node == NODE.name && v.rec.startTime == Some(now)
  {
    CountOne(s.nodes, IN_FLIGHT);
  }

  lemma NodeStarts(spec: RequestSpec, now: int, evict: EvictResult, s: Status)
    requires Plain(spec) && Working(s, NodePending, now)
    ensures Working(Reconcile(At(spec, now, 0, evict), s).mem, NodeCordoning, now)
    ensures Reconcile(At(spec, now, 0, evict), s).wrote
  {
    var p := At(spec, now, 0, evict);
    RunsIt(p, s, now);
    VisitStarts(spec, now, evict, s);
    Visited(p, s);
  }

  lemma NodeCordons(spec: RequestSpec, since: int, now: int, others: nat, evict: EvictResult, s: Status)
    requires Plain(spec) && Working(s, NodeCordoning, since) && now <= since + 100
    ensures Working(Reconcile(At(spec, now, others, evict), s).mem, NodeDraining, since)
    ensures Reconcile(At(spec, now, others, evict), s).wrote
  {
    var p := At(spec, now, others, evict);
    RunsIt(p, s, since);
    Visited(p, s);
  }

  lemma NodeBlocks(spec: RequestSpec, since: int, now: int, others: nat, s: Status)
    requires Plain(spec) && Working(s, NodeDraining, since) && since + 10 < now <= since + 100
    ensures Stuck(Reconcile(At(spec, now, others, STAYS), s).mem, since)
    ensures Reconcile(At(spec, now, others, STAYS), s).wrote
  {
    var p := At(spec, now, others, STAYS);
    RunsIt(p, s, since);
    Visited(p, s);
  }

  /** The request is blocked, with its one node. */
  ghost predicate Stuck(s: Status, since: int) {
    && StatusOk(s) && s.phase == PhaseBlocked && s.startTime == Some(since)
    && |s.nodes| == 1 && s.nodes[0].phase == NodeBlocked
  }

  lemma NodeDrains(spec: RequestSpec, since: int, now: int, others: nat, s: Status)
    requires Plain(spec) && Working(s, NodeDraining, since) && now <= since + 100
    ensures Working(Reconcile(At(spec, now, others, EMPTY), s).mem, NodePostCheck, since)
    ensures Reconcile(At(spec, now, others, EMPTY), s).wrote
  {
    var p := At(spec, now, others, EMPTY);
    RunsIt(p, s, since);
    Visited(p, s);
  }
}
