/** A run over a target that names its node twice: one record returns the node while the other still drains it. */
module Twins {
  import opened Api
  import opened NodeMachine
  import opened Passes
  import opened Invariant
  import opened PassFacts
  import Evictions
  import Planner
  import Policy
  import Solo

  const SPEC := RequestSpec(ModeExecute, StrategyByZone, 2, 1, 0, 0, true, ApprovalAuto, [], false, false, None)
  const NODE := Solo.NODE
  const TWICE := Target([NODE, NODE], [], [NODE, NODE])

  /** The round for the first record finds the node empty, the one for the second finds a pod that stays. */
  const PASS := Pass(SPEC, Some(PolicySpec(2, 0, 0, 1, ApprovalAuto)), Config(10, 100, 10), 0, Some(TWICE), false, false, false,
                     Some(true), Some(0), [Solo.Answer(Solo.EMPTY), Solo.Answer(Solo.STAYS)], true)

  /** The request executes, and its two records of the one node are in the phases. */
  ghost predicate Pair(s: Status, a: NodePhase, b: NodePhase) {
    && StatusOk(s) && s.phase == PhaseExecuting && s.startTime == Some(0)
    && |s.nodes| == 2 && s.nodes[0].node == s.nodes[1].node == NODE.name && s.nodes[0].batch == s.nodes[1].batch
    && s.nodes[0].phase == a && s.nodes[1].phase == b
    && forall i | 0 <= i < 2 && s.nodes[i].phase in IN_FLIGHT :: s.nodes[i].startTime == Some(0)
  }

  // ----- beginning -----

  lemma SameKeys(keys: seq<string>, key: string)
    requires Planner.StrictlySorted(keys) && forall k | k in keys :: k == key
    ensures |keys| <= 1
  {
    assert |keys| >= 2 ==> keys[0] in keys && keys[1] in keys && Planner.StrLt(keys[0], keys[1]);
  }

  lemma OneKey(nodes: seq<TargetNode>, key: string)
    requires forall i | 0 <= i < |nodes| :: Planner.KeyOf(Planner.ByZone, nodes[i]) == key
    ensures |Planner.GroupAll(Planner.ByZone, nodes)| <= 1
  {
    var keys := Planner.GroupKeys(Planner.ByZone, nodes);
    SameKeys(keys, key);
  }

  lemma PlanIsPair()
    ensures var ns := InitNodes(PlanFor(PASS, PolicyOf(PASS), TWICE).batches);
            && |ns| == 2 && ns[0].phase == ns[1].phase == NodePending
            && ns[0].node == ns[1].node == NODE.name && ns[0].batch == ns[1].batch
  {
    var plan := PlanFor(PASS, PolicyOf(PASS), TWICE);
    var ns := InitNodes(plan.batches);
    PlanRecords(PASS, PolicyOf(PASS), TWICE);
    NamedAlike(ns);
    OneBatchOnly(plan);
    Planner.BatchesPartition(plan.strategy, TWICE.nodes, SPEC.batchSize, Policy.Concurrency(PolicyOf(PASS), SPEC.maxConcurrent));
    InitNodesOk(plan.batches);
  }

  lemma OneBatchOnly(plan: Plan)
    requires plan == PlanFor(PASS, PolicyOf(PASS), TWICE)
    ensures |plan.batches| <= 1
  {
    OneKey(TWICE.nodes, Planner.KeyOf(Planner.ByZone, NODE));
    PlanByZone(PASS, PolicyOf(PASS), TWICE);
  }

  lemma PlanByZone(p: Pass, pol: PolicySpec, t: Target)
    requires p.spec.strategy == StrategyByZone
    ensures PlanFor(p, pol, t).batches == Planner.GroupAll(Planner.ByZone, t.nodes)
  {
  }

  lemma NamedAlike(ns: seq<NodeRec>)
    requires multiset(NodeNames(ns)) == multiset(Planner.Names(TWICE.nodes))
    ensures forall i | 0 <= i < |ns| :: ns[i].node == NODE.name
  {
    forall i | 0 <= i < |ns| ensures ns[i].node == NODE.name {
      assert NodeNames(ns)[i] in multiset(NodeNames(ns));
      assert ns[i].node in Planner.Names(TWICE.nodes);
    }
  }

  lemma Validated()
    ensures var o := Reconcile(PASS, NEW_STATUS.(phase := PhasePending));
            o.mem.phase == PhasePlanned && o.wrote && o.mem.nodes == [] && o.mem.startTime == None
  {
  }

  lemma Started(s: Status)
    requires StatusOk(s) && s.phase == PhasePlanned && s.startTime == None
    ensures Pair(Reconcile(PASS, s).mem, NodePending, NodePending) && Reconcile(PASS, s).wrote
  {
    var plan := PlanFor(PASS, PolicyOf(PASS), TWICE);
    PlanIsPair();
    PassKeepsStatus(PASS, s);
    StartIsBegin(PASS, PolicyOf(PASS), s, plan);
    Begun(s.(plan := Some(plan)), plan);
  }

  lemma Begun(s: Status, plan: Plan)
    requires s.nodes == [] && s.startTime == None && StatusOk(Begin(PASS, s, plan).mem)
    requires var ns := InitNodes(plan.batches);
             && |ns| == 2 && ns[0].phase == ns[1].phase == NodePending
             && ns[0].node == ns[1].node == NODE.name && ns[0].batch == ns[1].batch
    ensures Pair(Begin(PASS, s, plan).mem, NodePending, NodePending) && Begin(PASS, s, plan).wrote
  {
  }

  // ----- visits -----

  lemma {:induction false} CountTwo(ns: seq<NodeRec>, phases: set<NodePhase>)
    requires |ns| == 2
    ensures CountIn(ns, phases) == (if ns[0].phase in phases then 1 else 0) + (if ns[1].phase in phases then 1 else 0)
  {
    Solo.CountOne(ns[..1], phases);
  }

  lemma {:induction false} CurrentOfTwo(ns: seq<NodeRec>)
    requires |ns| == 2 && ns[0].batch == ns[1].batch >= 0 && !(IsNodeTerminal(ns[0].phase) && IsNodeTerminal(ns[1].phase))
    ensures CurrentBatch(ns) == ns[0].batch
  {
    CurrentBatchIsLeast(ns);
  }

  lemma RunsPair(s: Status, a: NodePhase, b: NodePhase)
    requires Pair(s, a, b) && !IsNodeTerminal(a) && !IsNodeTerminal(b)
    ensures RunsBatch(PASS, s) && CurrentBatch(s.nodes) == s.nodes[0].batch
  {
    CountTwo(s.nodes, {NodeFailed});
    CurrentOfTwo(s.nodes);
  }

  function First(s: Status): StepOut
    requires |s.nodes| == 2
  {
    Step(ContextOf(PASS, PolicyOf(PASS)), Solo.Answer(Solo.EMPTY), s.nodes[0], CountIn(s.nodes, IN_FLIGHT))
  }

  function Second(s: Status): StepOut
    requires |s.nodes| == 2
  {
    Step(ContextOf(PASS, PolicyOf(PASS)), Solo.Answer(Solo.STAYS), s.nodes[1], First(s).inFlight)
  }

  lemma {:induction false} VisitTwo(c: StepContext, answers: seq<NodeAnswer>, ns: seq<NodeRec>, fl: int)
    requires |ns| == 2 && ns[0].batch == ns[1].batch && !IsNodeTerminal(ns[0].phase) && !IsNodeTerminal(ns[1].phase)
    requires var x := Step(c, AnswerAt(answers, 0), ns[0], fl); !x.err
    ensures var x := Step(c, AnswerAt(answers, 0), ns[0], fl);
            var y := Step(c, AnswerAt(answers, 1), ns[1], x.inFlight);
            StepTo(c, answers, ns[0].batch, ns, fl, 2) == LoopOut([x.rec, y.rec], y.inFlight, x.events + y.events, y.err)
  {
    var b := ns[0].batch;
    assert StepTo(c, answers, b, ns, fl, 0) == LoopOut(ns, fl, [], false);
    var x := Step(c, AnswerAt(answers, 0), ns[0], fl);
    assert StepTo(c, answers, b, ns, fl, 1) == LoopOut(ns[0 := x.rec], x.inFlight, x.events, x.err);
  }

  lemma AfterTwo(s: Status, o: LoopOut)
    requires |o.nodes| == 2 && !o.err && s.phase == PhaseExecuting && (forall i | 0 <= i < 2 :: o.nodes[i].batch >= 0)
    requires !IsNodeTerminal(o.nodes[1].phase)
    ensures AfterBatch(PASS, s, o).mem == s.(nodes := o.nodes, summary := Recount(o.nodes))
  {
    CurrentBatchIsLeast(o.nodes);
  }

  lemma Visited(s: Status, a: NodePhase, b: NodePhase)
    requires Pair(s, a, b) && !IsNodeTerminal(a) && !IsNodeTerminal(b)
    requires !First(s).err && !Second(s).err && !IsNodeTerminal(Second(s).rec.phase)
    ensures var o := Reconcile(PASS, s);
            && StatusOk(o.mem) && o.wrote && o.mem.phase == PhaseExecuting && o.mem.startTime == s.startTime
            && o.mem.nodes == [First(s).rec, Second(s).rec]
            && o.events == Judgement(PASS, s) + (First(s).events + Second(s).events)
  {
    var c := ContextOf(PASS, PolicyOf(PASS));
    RunsPair(s, a, b);
    VisitTwo(c, PASS.answers, s.nodes, CountIn(s.nodes, IN_FLIGHT));
    StepKeepsRec(c, Solo.Answer(Solo.EMPTY), s.nodes[0], CountIn(s.nodes, IN_FLIGHT));
    StepKeepsRec(c, Solo.Answer(Solo.STAYS), s.nodes[1], First(s).inFlight);
    AfterTwo(s, RunBatch(PASS, PolicyOf(PASS), s));
    Solo.VisitIs(PASS, s);
    PassKeepsStatus(PASS, s);
    PassCalls(PASS, s);
  }

  lemma PairStarts(s: Status)
    requires Pair(s, NodePending, NodePending)
    ensures Pair(Reconcile(PASS, s).mem, NodeCordoning, NodeCordoning) && Reconcile(PASS, s).wrote
  {
    CountTwo(s.nodes, IN_FLIGHT);
    Visited(s, NodePending, NodePending);
  }

  lemma PairCordons(s: Status)
    requires Pair(s, NodeCordoning, NodeCordoning)
    ensures Pair(Reconcile(PASS, s).mem, NodeDraining, NodeDraining) && Reconcile(PASS, s).wrote
  {
    Visited(s, NodeCordoning, NodeCordoning);
  }

  lemma FirstDrains(s: Status)
    requires Pair(s, NodeDraining, NodeDraining)
    ensures Pair(Reconcile(PASS, s).mem, NodePostCheck, NodeDraining) && Reconcile(PASS, s).wrote
  {
    Visited(s, NodeDraining, NodeDraining);
  }

  lemma FirstTurns(s: Status)
    requires Pair(s, NodePostCheck, NodeDraining)
    ensures Pair(Reconcile(PASS, s).mem, NodeUncordoning, NodeDraining) && Reconcile(PASS, s).wrote
  {
    Visited(s, NodePostCheck, NodeDraining);
  }

  lemma FirstReturns(s: Status)
    requires Pair(s, NodeUncordoning, NodeDraining)
    ensures Reconcile(PASS, s).events
         == Judgement(PASS, s) + [UncordonCall(NODE.name, true, false), EvictRound(NODE.name, Some(1))]
    ensures Reconcile(PASS, s).wrote
  {
    Visited(s, NodeUncordoning, NodeDraining);
  }

  // ----- the run -----

  /** k times the same pass. */
  function Times(k: nat): seq<Pass> {
    seq(k, _ => PASS)
  }

  lemma OneMore(k: nat)
    ensures Run(Times(k + 1)) == Next(Run(Times(k)), PASS)
  {
    assert Times(k + 1) == Times(k) + [PASS];
    RunOn(Times(k), PASS);
  }

  lemma RunOn(ps: seq<Pass>, p: Pass)
    ensures Run(ps + [p]) == Next(Run(ps), p)
  {
    assert (ps + [p])[..|ps|] == ps;
  }

  lemma Seven()
    ensures Pair(Run(Times(7)).status, NodeUncordoning, NodeDraining)
  {
    Three();
    OneMore(3);
    PairStarts(Run(Times(3)).status);
    OneMore(4);
    PairCordons(Run(Times(4)).status);
    OneMore(5);
    FirstDrains(Run(Times(5)).status);
    OneMore(6);
    FirstTurns(Run(Times(6)).status);
  }

  lemma Three()
    ensures Pair(Run(Times(3)).status, NodePending, NodePending)
  {
    assert Times(0) == [];
    OneMore(0);
    OneMore(1);
    OneMore(2);
    Validated();
    StatusAlwaysOk(Times(2));
    Started(Run(Times(2)).status);
  }

  /** Eight passes, none of them an abort, all of them stored: the last uncordons the node for one record and evicts from
    * it for the other. */
  lemma EvictsReturned() returns (k: nat)
    ensures var tr := Run(Times(8)).trace;
            && Evictions.NoLostAbort(Times(8)) && k < |tr| && tr[k] == EvictRound(NODE.name, Some(1))
            && NODE.name !in Evictions.MustBe(tr[..k])
  {
    var w := Run(Times(7));
    Seven();
    OneMore(7);
    FirstReturns(w.status);
    AllStored(8);
    k := |w.trace| + |Judgement(PASS, w.status)| + 1;
    LastTwo(w.trace, Judgement(PASS, w.status), Run(Times(8)).trace, k);
  }

  lemma LastTwo(before: seq<Event>, noted: seq<Event>, tr: seq<Event>, k: nat)
    requires tr == before + (noted + [UncordonCall(NODE.name, true, false), EvictRound(NODE.name, Some(1))])
    requires k == |before| + |noted| + 1
    ensures k < |tr| && tr[k] == EvictRound(NODE.name, Some(1)) && NODE.name !in Evictions.MustBe(tr[..k])
  {
    assert tr[..k][k - 1] == UncordonCall(NODE.name, true, false);
  }

  lemma {:induction false} AllStored(k: nat)
    ensures Evictions.NoLostAbort(Times(k))
  {
    if k > 0 {
      AllStored(k - 1);
      assert Times(k)[..k - 1] == Times(k - 1);
    }
  }
}
