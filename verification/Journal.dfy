/** Every call a request ever makes is justified by what came before it, on every run: whatever the users edit
  * between passes, whatever the cluster answers, and whichever status writes are lost. */
module Journal {
  import opened Api
  import opened NodeMachine
  import opened Passes
  import opened Invariant
  import opened PassFacts
  import opened StateMachine
  import Approval
  import Policy

  /** An evaluation has found the gate approved or not required. */
  ghost predicate GateCleared(tr: seq<Event>, g: Gate) {
    Judged(g, Approved) in tr || Judged(g, NotRequired) in tr
  }

  /** The call is justified by the calls before it. */
  ghost predicate Justified(e: Event, before: seq<Event>) {
    match e
    case CordonCall(n, _) => GateCleared(before, GateDrain)
    case EvictRound(n, _) => CordonCall(n, true) in before
    case UncordonCall(n, _, abort) =>
      GateCleared(before, GateDrain)
      && (!abort ==> GateCleared(before, GateUncordon) && EvictRound(n, Some(0)) in before)
    case ReplaceCall(n, _) => EvictRound(n, Some(0)) in before
    case GoneSeen(n) => ReplaceCall(n, MachineDeleted) in before
    case Judged(_, _) => true
  }

  ghost predicate JournalOk(tr: seq<Event>) {
    forall k | 0 <= k < |tr| :: Justified(tr[k], tr[..k])
  }

  /** A node is in a phase only if the calls that lead there have been made. */
  ghost predicate Earned(r: NodeRec, tr: seq<Event>) {
    && (r.phase !in {NodePending, NodeCordoning, NodeSkipped} ==> CordonCall(r.node, true) in tr)
    && (r.phase in {NodePostCheck, NodeUncordoning, NodeReplacing, NodeAwaitingReplacement, NodeCompleted, NodeFailed}
        ==> EvictRound(r.node, Some(0)) in tr)
    && (r.phase == NodeUncordoning ==> GateCleared(tr, GateUncordon))
    && (r.phase == NodeAwaitingReplacement ==> ReplaceCall(r.node, MachineDeleted) in tr)
  }

  ghost predicate AllEarned(ns: seq<NodeRec>, tr: seq<Event>) {
    forall i | 0 <= i < |ns| :: Earned(ns[i], tr)
  }

  lemma JournalAppend(tr: seq<Event>, es: seq<Event>)
    requires JournalOk(tr)
    requires forall k | 0 <= k < |es| :: Justified(es[k], tr + es[..k])
    ensures JournalOk(tr + es)
  {
    var all := tr + es;
    forall k | 0 <= k < |all| ensures Justified(all[k], all[..k]) {
      if k < |tr| {
        assert all[..k] == tr[..k];
      } else {
        assert all[..k] == tr + es[..k - |tr|];
      }
    }
  }

  lemma EarnedLater(r: NodeRec, tr: seq<Event>, es: seq<Event>)
    requires Earned(r, tr)
    ensures Earned(r, tr + es)
  {
  }

  /** A step's calls are justified and its record has earned its new phase. */
  lemma StepEarns(c: StepContext, a: NodeAnswer, r: NodeRec, fl: int, tr: seq<Event>)
    requires Earned(r, tr) && GateCleared(tr, GateDrain)
    requires c.held || c.spec.ReplaceNodes() || GateCleared(tr, GateUncordon)
    ensures var s := Step(c, a, r, fl);
            && |s.events| <= 1
            && (s.events != [] ==> Justified(s.events[0], tr))
            && Earned(s.rec, tr + s.events)
  {
    StepJustified(c, a, r, fl, tr);
    StepKeepsEarned(c, a, r, fl, tr);
  }

  lemma StepJustified(c: StepContext, a: NodeAnswer, r: NodeRec, fl: int, tr: seq<Event>)
    requires Earned(r, tr) && GateCleared(tr, GateDrain)
    requires c.held || c.spec.ReplaceNodes() || GateCleared(tr, GateUncordon)
    ensures var s := Step(c, a, r, fl); |s.events| <= 1 && (s.events != [] ==> Justified(s.events[0], tr))
  {
  }

  lemma StepKeepsEarned(c: StepContext, a: NodeAnswer, r: NodeRec, fl: int, tr: seq<Event>)
    requires Earned(r, tr) && GateCleared(tr, GateDrain)
    requires c.held || c.spec.ReplaceNodes() || GateCleared(tr, GateUncordon)
    ensures var s := Step(c, a, r, fl); Earned(s.rec, tr + s.events)
  {
    var s := Step(c, a, r, fl);
    EarnedLater(r, tr, s.events);
    if s.events != [] {
      assert s.events[0] in tr + s.events;
    }
  }

  /** The journal is in order and every record has earned its phase. */
  ghost predicate InOrder(ns: seq<NodeRec>, tr: seq<Event>) {
    JournalOk(tr) && AllEarned(ns, tr)
  }

  /** One visited record keeps the journal and the earnings. */
  lemma VisitEarns(c: StepContext, a: NodeAnswer, ns: seq<NodeRec>, k: nat, fl: int, tr: seq<Event>)
    requires k < |ns| && InOrder(ns, tr) && GateCleared(tr, GateDrain)
    requires c.held || c.spec.ReplaceNodes() || GateCleared(tr, GateUncordon)
    ensures var s := Step(c, a, ns[k], fl); InOrder(ns[k := s.rec], tr + s.events)
  {
    var s := Step(c, a, ns[k], fl);
    StepEarns(c, a, ns[k], fl, tr);
    assert tr + [] == tr;
    JournalAppend(tr, s.events);
    AllEarnedLater(ns, tr, s.events);
  }

  lemma VisitInOrder(c: StepContext, answers: seq<NodeAnswer>, b: int, ns: seq<NodeRec>, fl: int, k: nat, tr: seq<Event>)
    requires k < |ns| && GateCleared(tr, GateDrain)
    requires c.held || c.spec.ReplaceNodes() || GateCleared(tr, GateUncordon)
    requires var q := StepTo(c, answers, b, ns, fl, k); InOrder(q.nodes, tr + q.events)
    ensures var o := StepTo(c, answers, b, ns, fl, k + 1); InOrder(o.nodes, tr + o.events)
  {
    var q := StepTo(c, answers, b, ns, fl, k);
    if !(q.err || ns[k].batch != b || IsNodeTerminal(ns[k].phase)) {
      var s := Step(c, AnswerAt(answers, k), ns[k], q.inFlight);
      VisitEarns(c, AnswerAt(answers, k), q.nodes, k, q.inFlight, tr + q.events);
      Regroup(tr, q.events, s.events, []);
      assert StepTo(c, answers, b, ns, fl, k + 1).events == q.events + s.events + [];
      assert tr + q.events + s.events + [] == tr + q.events + s.events;
    }
  }

  lemma {:induction false} LoopEarns(c: StepContext, answers: seq<NodeAnswer>, b: int, ns: seq<NodeRec>, fl: int, k: nat, tr: seq<Event>)
    requires k <= |ns| && InOrder(ns, tr) && GateCleared(tr, GateDrain)
    requires c.held || c.spec.ReplaceNodes() || GateCleared(tr, GateUncordon)
    ensures var o := StepTo(c, answers, b, ns, fl, k); InOrder(o.nodes, tr + o.events)
  {
    if k == 0 {
      assert tr + [] == tr;
    } else {
      LoopEarns(c, answers, b, ns, fl, k - 1, tr);
      VisitInOrder(c, answers, b, ns, fl, k - 1, tr);
    }
  }

  lemma {:induction false} ReleaseJustified(p: Pass, ns: seq<NodeRec>, k: nat, tr: seq<Event>)
    requires k <= |ns| && JournalOk(tr)
    requires ns != [] ==> GateCleared(tr, GateDrain)
    ensures JournalOk(tr + ReleaseTo(p, ns, k))
  {
    if k == 0 {
      assert tr + [] == tr;
    } else {
      ReleaseJustified(p, ns, k - 1, tr);
      var es := if ShouldRelease(ns[k - 1].phase) then [UncordonCall(ns[k - 1].node, AnswerAt(p.answers, k - 1).uncordonOk, true)] else [];
      JournalAppend(tr + ReleaseTo(p, ns, k - 1), es);
      assert tr + ReleaseTo(p, ns, k) == tr + ReleaseTo(p, ns, k - 1) + es;
    }
  }

  /** A request that holds a plan no drain gate is pending on, or any node record, has had the gate cleared. */
  ghost predicate DrainCleared(s: Status, tr: seq<Event>) {
    s.nodes != [] || (!IsTerminal(s.phase) && s.plan.Some? && s.gate != Some(GateDrain)) ==> GateCleared(tr, GateDrain)
  }

  ghost predicate RunOk(w: World) {
    StatusOk(w.status) && JournalOk(w.trace) && AllEarned(w.status.nodes, w.trace) && DrainCleared(w.status, w.trace)
  }

  lemma JudgementJustified(p: Pass, s: Status, tr: seq<Event>)
    requires JournalOk(tr)
    ensures JournalOk(tr + Judgement(p, s))
  {
    JournalAppend(tr, Judgement(p, s));
  }

  lemma AllEarnedLater(ns: seq<NodeRec>, tr: seq<Event>, es: seq<Event>)
    requires AllEarned(ns, tr)
    ensures AllEarned(ns, tr + es)
  {
    forall i | 0 <= i < |ns| ensures Earned(ns[i], tr + es) {
      EarnedLater(ns[i], tr, es);
    }
  }

  /** The judgement and the steps of a pass are justified, and the records it leaves have earned their phases. */
  lemma BatchEarns(p: Pass, s: Status, tr: seq<Event>)
    requires StatusOk(s) && JournalOk(tr) && AllEarned(s.nodes, tr) && DrainCleared(s, tr)
    ensures var t := tr + Judgement(p, s) + BatchCalls(p, s);
            JournalOk(t) && AllEarned(NodesAfter(p, s), t)
  {
    var tj := tr + Judgement(p, s);
    JudgementJustified(p, s, tr);
    AllEarnedLater(s.nodes, tr, Judgement(p, s));
    if RunsBatch(p, s) {
      var pol := PolicyOf(p);
      var c := ContextOf(p, pol);
      if !c.held && !p.spec.ReplaceNodes() {
        var v := VerdictAt(p, pol, GateUncordon);
        Approval.VerdictMeaning(Policy.ApprovalFor(pol, p.spec), p.spec.gates, GateUncordon);
        assert Judgement(p, s)[0] == Judged(GateUncordon, v);
        assert Judged(GateUncordon, v) in tj;
      }
      LoopEarns(c, p.answers, CurrentBatch(s.nodes), s.nodes, CountIn(s.nodes, IN_FLIGHT), |s.nodes|, tj);
    } else {
      assert tj + [] == tj;
      if Starts(p, s) && s.nodes == [] {
        PlanRecords(p, PolicyOf(p), p.target.value);
      } else if Retries(p, s) {
        forall i | 0 <= i < |s.nodes| ensures Earned(RetryRec(s.nodes[i], p.now), tj) {
          assert Earned(s.nodes[i], tj);
        }
      }
    }
  }

  /** How a plan with a cleared gate comes about in one pass. */
  lemma ClearedByPass(p: Pass, s: Status, tr: seq<Event>)
    requires StatusOk(s) && DrainCleared(s, tr)
    ensures DrainCleared(Reconcile(p, s).mem, tr + Judgement(p, s))
  {
    var tj := tr + Judgement(p, s);
    if Judgement(p, s) != [] {
      assert Judgement(p, s)[0] in tj;
    }
    if Proceeds(p, s) {
      ClearedByDispatch(p, s, tr);
    }
  }

  lemma ClearedByDispatch(p: Pass, s: Status, tr: seq<Event>)
    requires StatusOk(s) && DrainCleared(s, tr) && Proceeds(p, s)
    ensures DrainCleared(Dispatch(p, PolicyOf(p), s).mem, tr + Judgement(p, s))
  {
    var tj := tr + Judgement(p, s);
    var pol := PolicyOf(p);
    if Judgement(p, s) != [] {
      assert Judgement(p, s)[0] in tj;
    }
    match s.phase
    case PhasePending => ClearedByValidating(p, s, tr);
    case PhaseValidating => ClearedByValidating(p, s, tr);
    case PhaseAwaitingApproval => ClearedBySettling(p, s, PendingGate(s), VerdictAt(p, pol, PendingGate(s)), tr);
    case PhasePlanned =>
    case PhaseExecuting =>
      ExecutingNodes(p, pol, s);
    case PhasePaused =>
    case PhaseBlocked =>
  }

  lemma ClearedByValidating(p: Pass, s: Status, tr: seq<Event>)
    requires StatusOk(s) && s.phase in {PhasePending, PhaseValidating} && Proceeds(p, s) && DrainCleared(s, tr)
    ensures DrainCleared(Validating(p, PolicyOf(p), s).mem, tr + Judgement(p, s))
  {
    var tj := tr + Judgement(p, s);
    if Judgement(p, s) != [] {
      assert Judgement(p, s)[0] in tj;
    }
  }

  lemma ClearedBySettling(p: Pass, s: Status, gate: Gate, verdict: Verdict, tr: seq<Event>)
    requires StatusOk(s) && s.phase == PhaseAwaitingApproval && gate == PendingGate(s) && DrainCleared(s, tr)
    ensures DrainCleared(Settle(p, s, gate, verdict).mem, tr + [Judged(gate, verdict)])
  {
    assert Judged(gate, verdict) in tr + [Judged(gate, verdict)];
  }

  lemma ClearedLater(s: Status, tr: seq<Event>, es: seq<Event>)
    requires DrainCleared(s, tr)
    ensures DrainCleared(s, tr + es)
  {
  }

  lemma ReleaseEarns(p: Pass, s: Status, t: seq<Event>)
    requires JournalOk(t) && AllEarned(NodesAfter(p, s), t)
    requires NodesAfter(p, s) != [] ==> GateCleared(t, GateDrain)
    ensures JournalOk(t + ReleaseCalls(p, s)) && AllEarned(NodesAfter(p, s), t + ReleaseCalls(p, s))
  {
    if ReleaseCalls(p, s) == [] {
      assert t + [] == t;
    } else {
      ReleaseJustified(p, NodesAfter(p, s), |NodesAfter(p, s)|, t);
      AllEarnedLater(NodesAfter(p, s), t, ReleaseCalls(p, s));
    }
  }

  lemma Regroup(a: seq<Event>, b: seq<Event>, c: seq<Event>, d: seq<Event>)
    ensures a + (b + c + d) == a + b + c + d
  {
  }

  /** The calls of a pass after a trace, as one sequence. */
  lemma CallsInOrder(p: Pass, s: Status, tr: seq<Event>)
    requires IsTerminal(s.phase) || s.ending.Running?
    ensures tr + Reconcile(p, s).events == tr + Judgement(p, s) + BatchCalls(p, s) + ReleaseCalls(p, s)
  {
    PassCalls(p, s);
    Regroup(tr, Judgement(p, s), BatchCalls(p, s), ReleaseCalls(p, s));
  }

  lemma PassClears(p: Pass, s: Status, tr: seq<Event>)
    requires StatusOk(s) && DrainCleared(s, tr)
    ensures DrainCleared(Reconcile(p, s).mem, tr + Judgement(p, s) + BatchCalls(p, s))
    ensures DrainCleared(Reconcile(p, s).mem, tr + Reconcile(p, s).events)
  {
    ClearedByPass(p, s, tr);
    ClearedLater(Reconcile(p, s).mem, tr + Judgement(p, s), BatchCalls(p, s));
    ClearedLater(Reconcile(p, s).mem, tr + Judgement(p, s) + BatchCalls(p, s), ReleaseCalls(p, s));
    CallsInOrder(p, s, tr);
  }

  lemma NodesCleared(p: Pass, s: Status, t: seq<Event>)
    requires DrainCleared(Reconcile(p, s).mem, t)
    ensures NodesAfter(p, s) != [] ==> GateCleared(t, GateDrain)
  {
    PassNodes(p, s);
  }

  lemma PassEarns(p: Pass, s: Status, tr: seq<Event>)
    requires StatusOk(s) && JournalOk(tr) && AllEarned(s.nodes, tr) && DrainCleared(s, tr)
    ensures JournalOk(tr + Reconcile(p, s).events) && AllEarned(NodesAfter(p, s), tr + Reconcile(p, s).events)
  {
    BatchEarns(p, s, tr);
    PassClears(p, s, tr);
    NodesCleared(p, s, tr + Judgement(p, s) + BatchCalls(p, s));
    ReleaseEarns(p, s, tr + Judgement(p, s) + BatchCalls(p, s));
    CallsInOrder(p, s, tr);
  }

  lemma NextKeepsRun(w: World, p: Pass)
    requires RunOk(w)
    ensures RunOk(Next(w, p))
  {
    var es := Reconcile(p, w.status).events;
    PassKeepsStatus(p, w.status);
    PassNodes(p, w.status);
    PassEarns(p, w.status, w.trace);
    PassClears(p, w.status, w.trace);
    AllEarnedLater(w.status.nodes, w.trace, es);
    ClearedLater(w.status, w.trace, es);
  }

  lemma {:induction false} RunAlwaysOk(ps: seq<Pass>)
    ensures RunOk(Run(ps))
  {
    if ps != [] {
      RunAlwaysOk(ps[..|ps| - 1]);
      NextKeepsRun(Run(ps[..|ps| - 1]), ps[|ps| - 1]);
    }
  }

  /** Nothing is cordoned before the drain gate was approved or not required; nothing is evicted before a
    * successful cordon of that node; no step uncordons or replaces a node before a round on it found no
    * blocking pod, nor uncordons before the uncordon gate was cleared. */
  lemma EveryCallJustified(ps: seq<Pass>)
    ensures JournalOk(Run(ps).trace)
  {
    RunAlwaysOk(ps);
  }

  /** No request is planned, executing, or has node records unless an earlier evaluation cleared the drain gate:
    * pausing, resuming and editing the spec cannot get around it. */
  lemma DrainGateNotBypassed(ps: seq<Pass>)
    requires var s := Run(ps).status; s.phase in {PhasePlanned, PhaseExecuting} || s.nodes != []
    ensures GateCleared(Run(ps).trace, GateDrain)
  {
    RunAlwaysOk(ps);
  }

  /** A node is drained, and so may be completed, only after an eviction round that counted no blocking pod. */
  lemma DrainedMeansEmpty(ps: seq<Pass>, i: nat)
    requires i < |Run(ps).status.nodes|
    requires Run(ps).status.nodes[i].phase
             in {NodePostCheck, NodeUncordoning, NodeReplacing, NodeAwaitingReplacement, NodeCompleted, NodeFailed}
    ensures EvictRound(Run(ps).status.nodes[i].node, Some(0)) in Run(ps).trace
  {
    RunAlwaysOk(ps);
    assert Earned(Run(ps).status.nodes[i], Run(ps).trace);
  }
}
