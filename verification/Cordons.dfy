/** Which nodes a request may leave unschedulable, at every moment and when it ends. */
module Cordons {
  import opened Api
  import opened NodeMachine
  import opened Passes
  import opened Invariant
  import opened PassFacts
  import opened StateMachine

  // ----- calls are written ahead -----

  /** The stored records announce the call: the node is in exactly the phase whose step makes it. */
  ghost predicate Announced(e: Event, ns: seq<NodeRec>) {
    match e
    case CordonCall(n, _) => InPhase(ns, n, NodeCordoning)
    case EvictRound(n, _) => InPhase(ns, n, NodeDraining)
    case UncordonCall(n, _, abort) => abort || InPhase(ns, n, NodeUncordoning)
    case ReplaceCall(n, _) => InPhase(ns, n, NodeReplacing)
    case GoneSeen(n) => InPhase(ns, n, NodeAwaitingReplacement)
    case Judged(_, _) => true
  }

  ghost predicate AllAnnounced(es: seq<Event>, ns: seq<NodeRec>) {
    forall e | e in es :: Announced(e, ns)
  }

  ghost predicate InPhase(ns: seq<NodeRec>, n: string, phase: NodePhase) {
    exists i :: 0 <= i < |ns| && ns[i].node == n && ns[i].phase == phase
  }

  lemma {:induction false} LoopAnnounced(c: StepContext, answers: seq<NodeAnswer>, b: int, ns: seq<NodeRec>, fl: int, k: nat)
    requires k <= |ns|
    ensures AllAnnounced(StepTo(c, answers, b, ns, fl, k).events, ns)
  {
    if k > 0 {
      LoopAnnounced(c, answers, b, ns, fl, k - 1);
      VisitAnnounced(c, answers, b, ns, fl, k);
    }
  }

  lemma VisitAnnounced(c: StepContext, answers: seq<NodeAnswer>, b: int, ns: seq<NodeRec>, fl: int, k: nat)
    requires 0 < k <= |ns| && AllAnnounced(StepTo(c, answers, b, ns, fl, k - 1).events, ns)
    ensures AllAnnounced(StepTo(c, answers, b, ns, fl, k).events, ns)
  {
    var q := StepTo(c, answers, b, ns, fl, k - 1);
    StepAnnounced(c, AnswerAt(answers, k - 1), ns, k - 1, q.inFlight);
    BothAnnounced(q.events, Step(c, AnswerAt(answers, k - 1), ns[k - 1], q.inFlight).events, ns);
  }

  lemma BothAnnounced(a: seq<Event>, b: seq<Event>, ns: seq<NodeRec>)
    requires AllAnnounced(a, ns) && AllAnnounced(b, ns)
    ensures AllAnnounced(a + b, ns)
  {
  }

  lemma StepAnnounced(c: StepContext, a: NodeAnswer, ns: seq<NodeRec>, i: nat, fl: int)
    requires i < |ns|
    ensures AllAnnounced(Step(c, a, ns[i], fl).events, ns)
  {
    assert InPhase(ns, ns[i].node, ns[i].phase);
  }

  lemma {:induction false} ReleaseIsAbort(p: Pass, ns: seq<NodeRec>, k: nat)
    requires k <= |ns|
    ensures forall e | e in ReleaseTo(p, ns, k) :: e.UncordonCall? && e.abort
  {
    if k > 0 {
      ReleaseIsAbort(p, ns, k - 1);
    }
  }

  /** Write-ahead: every cordon, eviction round, replacement and step uncordon of a pass is on a node whose stored
    * phase at the start of that pass is exactly the one that announces it. So a lost status write repeats
    * calls but never makes one that was not announced. */
  lemma CallsAreWrittenAhead(p: Pass, s: Status)
    requires IsTerminal(s.phase) || s.ending.Running?
    ensures forall e | e in Reconcile(p, s).events :: Announced(e, s.nodes)
  {
    PassCalls(p, s);
    BatchAnnounced(p, s);
    ReleaseIsAbort(p, NodesAfter(p, s), |NodesAfter(p, s)|);
    PartsAnnounced(Judgement(p, s), BatchCalls(p, s), ReleaseCalls(p, s), s.nodes);
  }

  lemma PartsAnnounced(noted: seq<Event>, calls: seq<Event>, released: seq<Event>, ns: seq<NodeRec>)
    requires forall e | e in noted :: e.Judged?
    requires AllAnnounced(calls, ns)
    requires forall e | e in released :: e.UncordonCall? && e.abort
    ensures forall e | e in noted + calls + released :: Announced(e, ns)
  {
  }

  lemma BatchAnnounced(p: Pass, s: Status)
    ensures AllAnnounced(BatchCalls(p, s), s.nodes)
  {
    if RunsBatch(p, s) {
      var pol := PolicyOf(p);
      LoopAnnounced(ContextOf(p, pol), p.answers, CurrentBatch(s.nodes), s.nodes, CountIn(s.nodes, IN_FLIGHT), |s.nodes|);
    }
  }

  // ----- who may be unschedulable -----

  /** Phases of nodes this request may have cordoned and not returned, destroyed or deliberately left. */
  const HOLDERS := IN_FLIGHT + {NodeBlocked, NodeFailed}

  /** Every node the request may have left unschedulable has a record in one of the phases. */
  ghost predicate Accounted(ns: seq<NodeRec>, cordoned: set<string>) {
    forall n | n in cordoned :: Held(ns, n)
  }

  ghost predicate Held(ns: seq<NodeRec>, n: string) {
    exists i :: 0 <= i < |ns| && ns[i].node == n && ns[i].phase in HOLDERS
  }

  lemma {:induction false} EffectsOne(cordoned: set<string>, e: Event)
    ensures Effects(cordoned, [e]) == Effect(cordoned, e)
  {
    assert [e][..0] == [];
  }

  lemma {:induction false} StepAccounts(c: StepContext, a: NodeAnswer, ns: seq<NodeRec>, i: nat, fl: int, cordoned: set<string>)
    requires c.spec.uncordonAfter || c.spec.ReplaceNodes()
    requires i < |ns| && Accounted(ns, cordoned)
    ensures var s := Step(c, a, ns[i], fl);
            |s.events| <= 1 && Accounted(ns[i := s.rec], Effects(cordoned, s.events))
  {
    var s := Step(c, a, ns[i], fl);
    var ns' := ns[i := s.rec];
    assert s.rec.node == ns[i].node;
    var after := Effects(cordoned, s.events);
    if s.events != [] {
      EffectsOne(cordoned, s.events[0]);
      assert s.events == [s.events[0]];
    }
    forall n | n in after ensures Held(ns', n) {
      if n in cordoned {
        var j :| 0 <= j < |ns| && ns[j].node == n && ns[j].phase in HOLDERS;
        assert ns'[j].node == n;
        if j == i {
          StepHolds(c, a, ns[i], fl);
        }
        assert ns'[j].phase in HOLDERS;
      } else {
        assert s.events[0].CordonCall?;
        assert ns'[i].node == n && ns'[i].phase in HOLDERS;
      }
    }
  }

  /** A step lets go of a node only by uncordoning it or seeing it gone. */
  lemma StepHolds(c: StepContext, a: NodeAnswer, r: NodeRec, fl: int)
    requires c.spec.uncordonAfter || c.spec.ReplaceNodes()
    requires r.phase in HOLDERS
    ensures var s := Step(c, a, r, fl);
            s.rec.phase in HOLDERS || s.events == [UncordonCall(r.node, true, false)] || s.events == [GoneSeen(r.node)]
  {
  }

  lemma {:induction false} LoopAccounts(c: StepContext, answers: seq<NodeAnswer>, b: int, ns: seq<NodeRec>, fl: int, k: nat, cordoned: set<string>)
    requires c.spec.uncordonAfter || c.spec.ReplaceNodes()
    requires k <= |ns| && Accounted(ns, cordoned)
    ensures var o := StepTo(c, answers, b, ns, fl, k);
            Accounted(o.nodes, Effects(cordoned, o.events))
  {
    if k > 0 {
      LoopAccounts(c, answers, b, ns, fl, k - 1, cordoned);
      VisitAccounts(c, answers, b, ns, fl, k - 1, cordoned);
    }
  }

  lemma VisitAccounts(c: StepContext, answers: seq<NodeAnswer>, b: int, ns: seq<NodeRec>, fl: int, k: nat, cordoned: set<string>)
    requires c.spec.uncordonAfter || c.spec.ReplaceNodes()
    requires k < |ns| && var q := StepTo(c, answers, b, ns, fl, k); Accounted(q.nodes, Effects(cordoned, q.events))
    ensures var o := StepTo(c, answers, b, ns, fl, k + 1); Accounted(o.nodes, Effects(cordoned, o.events))
  {
    var q := StepTo(c, answers, b, ns, fl, k);
    var s := Step(c, AnswerAt(answers, k), ns[k], q.inFlight);
    StepAccounts(c, AnswerAt(answers, k), q.nodes, k, q.inFlight, Effects(cordoned, q.events));
    EffectsConcat(cordoned, q.events, s.events);
  }

  /** Only a cordon call can add a node. */
  lemma {:induction false} EffectsFrom(cordoned: set<string>, es: seq<Event>, n: string)
    requires n in Effects(cordoned, es)
    ensures n in cordoned || CordonCall(n, true) in es || CordonCall(n, false) in es
  {
    if es != [] {
      var m := |es| - 1;
      if n in Effects(cordoned, es[..m]) {
        EffectsFrom(cordoned, es[..m], n);
        assert forall e | e in es[..m] :: e in es;
      } else {
        assert es[m].CordonCall? && es[m].node == n;
        assert es[m] in es;
      }
    }
  }

  /** When the status write is lost, the stored records still account for every node. */
  lemma {:induction false} LostWriteAccounts(p: Pass, s: Status, cordoned: set<string>)
    requires IsTerminal(s.phase) || s.ending.Running?
    requires Accounted(s.nodes, cordoned)
    ensures Accounted(s.nodes, Effects(cordoned, Reconcile(p, s).events))
  {
    var es := Reconcile(p, s).events;
    CallsAreWrittenAhead(p, s);
    forall n | n in Effects(cordoned, es) ensures Held(s.nodes, n) {
      EffectsFrom(cordoned, es, n);
      if n !in cordoned {
        assert InPhase(s.nodes, n, NodeCordoning);
        var i :| 0 <= i < |s.nodes| && s.nodes[i].node == n && s.nodes[i].phase == NodeCordoning;
        assert s.nodes[i].phase in HOLDERS;
      }
    }
  }

  lemma {:induction false} UncordonsOnlyShrink(cordoned: set<string>, es: seq<Event>)
    requires forall e | e in es :: e.UncordonCall? || e.Judged?
    ensures Effects(cordoned, es) <= cordoned
  {
    if es != [] {
      assert forall e | e in es[..|es| - 1] :: e in es;
      UncordonsOnlyShrink(cordoned, es[..|es| - 1]);
      assert es[|es| - 1] in es;
    }
  }

  /** Fewer nodes to account for, or the same records under another status. */
  lemma AccountedLess(ns: seq<NodeRec>, more: set<string>, less: set<string>)
    requires Accounted(ns, more) && less <= more
    ensures Accounted(ns, less)
  {
  }

  lemma RetryAccounts(ns: seq<NodeRec>, now: int, cordoned: set<string>)
    requires Accounted(ns, cordoned)
    ensures Accounted(RetryAll(ns, now), cordoned)
  {
    var r := RetryAll(ns, now);
    forall n | n in cordoned ensures Held(r, n) {
      var i :| 0 <= i < |ns| && ns[i].node == n && ns[i].phase in HOLDERS;
      assert r[i].node == n && r[i].phase in HOLDERS;
    }
  }

  /** The nodes after the judgement and the steps of the pass. */
  lemma {:induction false} BatchAccounts(p: Pass, s: Status, cordoned: set<string>)
    requires p.spec.uncordonAfter || p.spec.ReplaceNodes()
    requires Accounted(s.nodes, cordoned)
    ensures Accounted(NodesAfter(p, s), Effects(cordoned, Judgement(p, s) + BatchCalls(p, s)))
  {
    JudgementHasNoEffect(p, s, cordoned);
    EffectsConcat(cordoned, Judgement(p, s), BatchCalls(p, s));
    if RunsBatch(p, s) {
      var pol := PolicyOf(p);
      LoopAccounts(ContextOf(p, pol), p.answers, CurrentBatch(s.nodes), s.nodes, CountIn(s.nodes, IN_FLIGHT), |s.nodes|, cordoned);
    } else if Retries(p, s) {
      RetryAccounts(s.nodes, p.now, cordoned);
    } else if s.nodes == [] {
      NothingHeld(s.nodes, cordoned);
    }
  }

  lemma {:induction false} JudgementHasNoEffect(p: Pass, s: Status, cordoned: set<string>)
    ensures Effects(cordoned, Judgement(p, s)) == cordoned
  {
    var j := Judgement(p, s);
    assert |j| <= 1;
    if j != [] {
      assert j[..|j| - 1] == [];
    }
  }

  lemma NextAccounts(w: World, p: Pass)
    requires StatusOk(w.status) && Accounted(w.status.nodes, w.cordoned)
    requires p.spec.uncordonAfter || p.spec.ReplaceNodes()
    ensures Accounted(Next(w, p).status.nodes, Next(w, p).cordoned)
  {
    var s := w.status;
    LostWriteAccounts(p, s, w.cordoned);
    WrittenAccounts(p, s, w.cordoned);
  }

  lemma {:induction false} WrittenAccounts(p: Pass, s: Status, cordoned: set<string>)
    requires StatusOk(s) && Accounted(s.nodes, cordoned)
    requires p.spec.uncordonAfter || p.spec.ReplaceNodes()
    ensures Accounted(Reconcile(p, s).mem.nodes, Effects(cordoned, Reconcile(p, s).events))
  {
    PassNodes(p, s);
    BatchAccounts(p, s, cordoned);
    var mid := Effects(cordoned, Judgement(p, s) + BatchCalls(p, s));
    EffectsInOrder(p, s, cordoned);
    ReleaseIsAbort(p, NodesAfter(p, s), |NodesAfter(p, s)|);
    UncordonsOnlyShrink(mid, ReleaseCalls(p, s));
    AccountedLess(NodesAfter(p, s), mid, Effects(mid, ReleaseCalls(p, s)));
  }

  lemma {:induction false} EffectsInOrder(p: Pass, s: Status, cordoned: set<string>)
    requires IsTerminal(s.phase) || s.ending.Running?
    ensures Effects(cordoned, Reconcile(p, s).events)
         == Effects(Effects(cordoned, Judgement(p, s) + BatchCalls(p, s)), ReleaseCalls(p, s))
  {
    PassCalls(p, s);
    EffectsConcat(cordoned, Judgement(p, s) + BatchCalls(p, s), ReleaseCalls(p, s));
  }

  /** On every run of a request that returns or replaces its nodes, whatever writes are lost: each node it may have
    * left unschedulable has a record that is in flight, blocked or failed. */
  lemma {:induction false} UnschedulableIsAccounted(ps: seq<Pass>)
    requires forall i | 0 <= i < |ps| :: ps[i].spec.uncordonAfter || ps[i].spec.ReplaceNodes()
    ensures Accounted(Run(ps).status.nodes, Run(ps).cordoned)
  {
    if ps != [] {
      var n := |ps| - 1;
      UnschedulableIsAccounted(ps[..n]);
      StatusAlwaysOk(ps[..n]);
      NextAccounts(Run(ps[..n]), ps[n]);
    }
  }

  // ----- no stranded nodes -----

  /** No record is on the replacement path. */
  ghost predicate NoReplacement(ns: seq<NodeRec>) {
    forall i | 0 <= i < |ns| :: ns[i].phase !in {NodeReplacing, NodeAwaitingReplacement, NodeFailed}
  }

  lemma StepNoReplacement(c: StepContext, a: NodeAnswer, r: NodeRec, fl: int)
    requires !c.spec.ReplaceNodes() && r.phase !in {NodeReplacing, NodeAwaitingReplacement, NodeFailed}
    ensures Step(c, a, r, fl).rec.phase !in {NodeReplacing, NodeAwaitingReplacement, NodeFailed}
  {
  }

  lemma {:induction false} LoopNoReplacement(c: StepContext, answers: seq<NodeAnswer>, b: int, ns: seq<NodeRec>, fl: int, k: nat)
    requires k <= |ns| && !c.spec.ReplaceNodes() && NoReplacement(ns)
    ensures NoReplacement(StepTo(c, answers, b, ns, fl, k).nodes)
  {
    if k > 0 {
      LoopNoReplacement(c, answers, b, ns, fl, k - 1);
      var q := StepTo(c, answers, b, ns, fl, k - 1);
      StepNoReplacement(c, AnswerAt(answers, k - 1), ns[k - 1], q.inFlight);
    }
  }

  lemma NextNoReplacement(p: Pass, s: Status)
    requires StatusOk(s) && !p.spec.ReplaceNodes() && NoReplacement(s.nodes)
    ensures NoReplacement(NodesAfter(p, s))
  {
    if RunsBatch(p, s) {
      var pol := PolicyOf(p);
      LoopNoReplacement(ContextOf(p, pol), p.answers, CurrentBatch(s.nodes), s.nodes, CountIn(s.nodes, IN_FLIGHT), |s.nodes|);
    } else if Starts(p, s) && s.nodes == [] {
      PlanRecords(p, PolicyOf(p), p.target.value);
    }
  }

  ghost predicate NoFailedRelease(es: seq<Event>) {
    forall e | e in es :: e.UncordonCall? && e.abort ==> e.ok
  }

  /** Releasing every record that may hold its node empties the set. */
  lemma {:induction false} ReleaseFrees(p: Pass, ns: seq<NodeRec>, k: nat, cordoned: set<string>, i: nat)
    requires i < k <= |ns| && ShouldRelease(ns[i].phase)
    requires NoFailedRelease(ReleaseTo(p, ns, k))
    ensures ns[i].node !in Effects(cordoned, ReleaseTo(p, ns, k))
  {
    var before := ReleaseTo(p, ns, k - 1);
    var es := if ShouldRelease(ns[k - 1].phase) then [UncordonCall(ns[k - 1].node, AnswerAt(p.answers, k - 1).uncordonOk, true)] else [];
    EffectsConcat(cordoned, before, es);
    assert forall e | e in before :: e in ReleaseTo(p, ns, k);
    if es != [] {
      assert es[0] in ReleaseTo(p, ns, k);
      assert es[..|es| - 1] == [];
    }
    if i < k - 1 {
      ReleaseFrees(p, ns, k - 1, cordoned, i);
    }
  }

  lemma {:induction false} ReleaseFreesAll(p: Pass, ns: seq<NodeRec>, cordoned: set<string>)
    requires Accounted(ns, cordoned) && NoReplacement(ns)
    requires NoFailedRelease(ReleaseTo(p, ns, |ns|))
    ensures Effects(cordoned, ReleaseTo(p, ns, |ns|)) == {}
  {
    var es := ReleaseTo(p, ns, |ns|);
    ReleaseIsAbort(p, ns, |ns|);
    UncordonsOnlyShrink(cordoned, es);
    if n :| n in Effects(cordoned, es) {
      assert Held(ns, n);
      var i :| 0 <= i < |ns| && ns[i].node == n && ns[i].phase in HOLDERS;
      assert ShouldRelease(ns[i].phase);
      ReleaseFrees(p, ns, |ns|, cordoned, i);
      assert false;
    }
  }

  lemma NothingHeld(ns: seq<NodeRec>, cordoned: set<string>)
    requires Accounted(ns, cordoned)
    requires forall i | 0 <= i < |ns| :: ns[i].phase !in HOLDERS
    ensures cordoned == {}
  {
  }

  /** When a pass ends the request other than by rejecting the uncordon gate, no node is left behind. */
  lemma {:induction false} EndFrees(p: Pass, s: Status, cordoned: set<string>)
    requires StatusOk(s) && !IsTerminal(s.phase) && Releases(p.spec)
    requires Accounted(s.nodes, cordoned) && NoReplacement(s.nodes)
    requires NoFailedRelease(Reconcile(p, s).events)
    requires IsTerminal(Reconcile(p, s).mem.phase) && Reconcile(p, s).mem.ending != RejectedAtGate(GateUncordon)
    ensures Effects(cordoned, Reconcile(p, s).events) == {}
  {
    var o := Reconcile(p, s);
    var ns := NodesAfter(p, s);
    var mid := Effects(cordoned, Judgement(p, s) + BatchCalls(p, s));
    EffectsInOrder(p, s, cordoned);
    if Aborts(p, s) {
      AbortFrees(p, s, cordoned);
    } else {
      WrittenAccounts(p, s, cordoned);
      PassKeepsStatus(p, s);
      OtherEndings(o.mem);
      NothingHeld(o.mem.nodes, Effects(cordoned, o.events));
    }
  }

  lemma {:induction false} AbortFrees(p: Pass, s: Status, cordoned: set<string>)
    requires StatusOk(s) && Aborts(p, s) && Releases(p.spec)
    requires Accounted(s.nodes, cordoned) && NoReplacement(s.nodes)
    requires NoFailedRelease(Reconcile(p, s).events)
    ensures Effects(cordoned, Reconcile(p, s).events) == {}
  {
    var ns := NodesAfter(p, s);
    EffectsInOrder(p, s, cordoned);
    BatchAccounts(p, s, cordoned);
    NextNoReplacement(p, s);
    PassCalls(p, s);
    assert forall e | e in ReleaseCalls(p, s) :: e in Reconcile(p, s).events;
    ReleaseFreesAll(p, ns, Effects(cordoned, Judgement(p, s) + BatchCalls(p, s)));
  }

  /** Completed requests have only completed or skipped nodes; a rejected drain gate comes before any record. */
  lemma OtherEndings(s: Status)
    requires StatusOk(s) && IsTerminal(s.phase) && s.ending !in {Aborted, CancelledByUser, RejectedAtGate(GateUncordon)}
    ensures forall i | 0 <= i < |s.nodes| :: s.nodes[i].phase !in HOLDERS
  {
    match s.ending
    case Finished => assert AllDone(s.nodes);
    case RejectedAtGate(g) =>
      match g {
        case GateDrain => assert s.nodes == [];
      }
  }

  /** What a request that returns its nodes keeps at every moment. */
  ghost predicate FreeOk(w: World) {
    && StatusOk(w.status) && Accounted(w.status.nodes, w.cordoned) && NoReplacement(w.status.nodes)
    && (IsTerminal(w.status.phase) && w.status.ending != RejectedAtGate(GateUncordon) ==> w.cordoned == {})
  }

  lemma NextFree(w: World, p: Pass)
    requires FreeOk(w) && Releases(p.spec) && NoFailedRelease(Reconcile(p, w.status).events)
    ensures FreeOk(Next(w, p))
  {
    var s := w.status;
    PassKeepsStatus(p, s);
    NextAccounts(w, p);
    NextNoReplacement(p, s);
    PassNodes(p, s);
    if IsTerminal(s.phase) {
      assert Reconcile(p, s) == Idle(s);
    } else if IsTerminal(Reconcile(p, s).mem.phase) && Reconcile(p, s).mem.ending != RejectedAtGate(GateUncordon) {
      EndFrees(p, s, w.cordoned);
    }
  }

  lemma {:induction false} FreeFrom(ps: seq<Pass>)
    requires forall i | 0 <= i < |ps| :: Releases(ps[i].spec)
    requires NoFailedRelease(Run(ps).trace)
    ensures FreeOk(Run(ps))
  {
    if ps != [] {
      var n := |ps| - 1;
      var w := Run(ps[..n]);
      assert Run(ps).trace == w.trace + Reconcile(ps[n], w.status).events;
      FreeFrom(ps[..n]);
      NextFree(w, ps[n]);
    }
  }

  /** No stranded nodes: a request that returns its nodes and whose abort uncordons are answered leaves no node
    * unschedulable when it ends, however it ends - except when an approver rejects the uncordon gate. Lost
    * status writes and half-answered cordon calls included. */
  lemma NoStrandedNodes(ps: seq<Pass>)
    requires forall i | 0 <= i < |ps| :: Releases(ps[i].spec)
    requires NoFailedRelease(Run(ps).trace)
    requires IsTerminal(Run(ps).status.phase) && Run(ps).status.ending != RejectedAtGate(GateUncordon)
    ensures Run(ps).cordoned == {}
  {
    FreeFrom(ps);
  }

  // ----- what the trace says -----

  /** The set of nodes that may be unschedulable is the effect of the trace. */
  lemma {:induction false} CordonedByTrace(ps: seq<Pass>)
    ensures Run(ps).cordoned == Effects({}, Run(ps).trace)
  {
    if ps != [] {
      var n := |ps| - 1;
      var w := Run(ps[..n]);
      CordonedByTrace(ps[..n]);
      EffectsConcat({}, w.trace, Reconcile(ps[n], w.status).events);
    }
  }

  /** No call has tried to uncordon the node, and it has not been seen gone. */
  ghost predicate NeverFreed(tr: seq<Event>, n: string) {
    forall e | e in tr :: !(e.UncordonCall? && e.node == n) && e != GoneSeen(n)
  }

  lemma {:induction false} KeptCordon(tr: seq<Event>, n: string)
    requires NeverFreed(tr, n) && CordonCall(n, true) in tr
    ensures n in Effects({}, tr)
  {
    var k := |tr| - 1;
    if tr[k] != CordonCall(n, true) {
      KeptCordon(tr[..k], n);
      assert tr[k] in tr;
    }
  }
}
