/** When exactly a pass uncordons, in terms of what it reads. */
module Guards {
  import opened Api
  import opened NodeMachine
  import opened Passes
  import opened Invariant
  import opened PassFacts
  import opened StateMachine
  import opened Cordons
  import Evictions
  import Gates

  // ----- uncordons of a step -----

  ghost predicate StepUncordonIn(es: seq<Event>, n: string) {
    exists e :: e in es && Evictions.StepUncordons(e, n)
  }

  /** One of the first k records is an uncordoning one of the node, and the visit comes to it. */
  ghost predicate ComesToUncordon(c: StepContext, answers: seq<NodeAnswer>, b: int, ns: seq<NodeRec>, fl: int, k: nat, n: string)
    requires k <= |ns|
  {
    exists i :: 0 <= i < k && ns[i].batch == b && ns[i].phase == NodeUncordoning && ns[i].node == n
                && !StepTo(c, answers, b, ns, fl, i).err
  }

  lemma StepUncordonsIff(c: StepContext, a: NodeAnswer, r: NodeRec, fl: int, n: string)
    ensures StepUncordonIn(Step(c, a, r, fl).events, n) <==> r.phase == NodeUncordoning && r.node == n
  {
    if r.phase == NodeUncordoning {
      var e := UncordonCall(r.node, a.uncordonOk, false);
      assert Step(c, a, r, fl).events == [e];
      assert e in [e] && (r.node == n ==> Evictions.StepUncordons(e, n));
    }
  }

  lemma InConcat(a: seq<Event>, b: seq<Event>, n: string)
    ensures StepUncordonIn(a + b, n) <==> StepUncordonIn(a, n) || StepUncordonIn(b, n)
  {
    if e :| e in a && Evictions.StepUncordons(e, n) {
      assert e in a + b;
    }
    if e :| e in b && Evictions.StepUncordons(e, n) {
      assert e in a + b;
    }
  }

  lemma {:induction false} VisitUncordonsIff(c: StepContext, answers: seq<NodeAnswer>, b: int, ns: seq<NodeRec>, fl: int, k: nat, n: string)
    requires k <= |ns|
    ensures StepUncordonIn(StepTo(c, answers, b, ns, fl, k).events, n) <==> ComesToUncordon(c, answers, b, ns, fl, k, n)
  {
    if k > 0 {
      VisitUncordonsIff(c, answers, b, ns, fl, k - 1, n);
      OneMoreVisited(c, answers, b, ns, fl, k, n);
    }
  }

  lemma OneMoreVisited(c: StepContext, answers: seq<NodeAnswer>, b: int, ns: seq<NodeRec>, fl: int, k: nat, n: string)
    requires 0 < k <= |ns|
    requires StepUncordonIn(StepTo(c, answers, b, ns, fl, k - 1).events, n) <==> ComesToUncordon(c, answers, b, ns, fl, k - 1, n)
    ensures StepUncordonIn(StepTo(c, answers, b, ns, fl, k).events, n) <==> ComesToUncordon(c, answers, b, ns, fl, k, n)
  {
    var q, r := StepTo(c, answers, b, ns, fl, k - 1), ns[k - 1];
    if !(q.err || r.batch != b || IsNodeTerminal(r.phase)) {
      var st := Step(c, AnswerAt(answers, k - 1), r, q.inFlight);
      StepUncordonsIff(c, AnswerAt(answers, k - 1), r, q.inFlight, n);
      InConcat(q.events, st.events, n);
    }
    assert ComesToUncordon(c, answers, b, ns, fl, k, n)
      <==> ComesToUncordon(c, answers, b, ns, fl, k - 1, n)
           || (r.batch == b && r.phase == NodeUncordoning && r.node == n && !q.err);
  }

  /** A pass uncordons a node by a step if and only if it comes to a stored record of it that is uncordoning: the gate, the
    * decisions on it and the verdict the pass notes have no say any more. */
  lemma StepUncordonIff(p: Pass, s: Status, n: string)
    requires IsTerminal(s.phase) || s.ending.Running?
    ensures StepUncordonIn(Reconcile(p, s).events, n)
            <==> exists i: nat :: Reached(p, s, i) && s.nodes[i].phase == NodeUncordoning && s.nodes[i].node == n
  {
    PassCalls(p, s);
    ReleaseIsAbort(p, NodesAfter(p, s), |NodesAfter(p, s)|);
    InConcat(Judgement(p, s), BatchCalls(p, s), n);
    InConcat(Judgement(p, s) + BatchCalls(p, s), ReleaseCalls(p, s), n);
    if RunsBatch(p, s) {
      VisitUncordonsIff(ContextOf(p, PolicyOf(p)), p.answers, CurrentBatch(s.nodes), s.nodes, CountIn(s.nodes, IN_FLIGHT), |s.nodes|, n);
    }
    ComesToIsReached(p, s, n);
  }

  lemma ComesToIsReached(p: Pass, s: Status, n: string)
    ensures (RunsBatch(p, s)
             && ComesToUncordon(ContextOf(p, PolicyOf(p)), p.answers, CurrentBatch(s.nodes), s.nodes, CountIn(s.nodes, IN_FLIGHT), |s.nodes|, n))
            <==> exists i: nat :: Reached(p, s, i) && s.nodes[i].phase == NodeUncordoning && s.nodes[i].node == n
  {
  }

  // ----- decisions that come too late -----

  /** The same pass but for the decisions recorded on the gates. */
  predicate OnlyGatesDiffer(p: Pass, q: Pass) {
    q == p.(spec := p.spec.(gates := q.spec.gates))
  }

  lemma SameStep(c: StepContext, d: StepContext, a: NodeAnswer, r: NodeRec, fl: int)
    requires d == c.(spec := c.spec.(gates := d.spec.gates))
    ensures Step(c, a, r, fl) == Step(d, a, r, fl)
  {
  }

  lemma {:induction false} SameVisit(c: StepContext, d: StepContext, answers: seq<NodeAnswer>, b: int, ns: seq<NodeRec>, fl: int, k: nat)
    requires k <= |ns| && d == c.(spec := c.spec.(gates := d.spec.gates))
    ensures StepTo(c, answers, b, ns, fl, k) == StepTo(d, answers, b, ns, fl, k)
  {
    if k > 0 {
      SameVisit(c, d, answers, b, ns, fl, k - 1);
      SameStep(c, d, AnswerAt(answers, k - 1), ns[k - 1], StepTo(c, answers, b, ns, fl, k - 1).inFlight);
    }
  }

  lemma SameCompletion(p: Pass, q: Pass, s: Status)
    requires OnlyGatesDiffer(p, q)
    ensures CompleteExecution(p, s) == CompleteExecution(q, s) && Fail(p, s) == Fail(q, s)
    ensures Cancel(p, s, CancelledByUser) == Cancel(q, s, CancelledByUser)
  {
    Gates.SameRelease(p, q, s.nodes, |s.nodes|);
  }

  lemma SameAdvance(p: Pass, q: Pass, pol: PolicySpec, s: Status)
    requires OnlyGatesDiffer(p, q) && VerdictAt(p, pol, GateUncordon) == VerdictAt(q, pol, GateUncordon)
    ensures Advance(p, pol, s) == Advance(q, pol, s)
  {
    SameVisit(ContextOf(p, pol), ContextOf(q, pol), p.answers, CurrentBatch(s.nodes), s.nodes, CountIn(s.nodes, IN_FLIGHT), |s.nodes|);
    SameCompletion(p, q, s);
    SameCompletion(p, q, s.(nodes := RunBatch(p, pol, s).nodes));
  }

  lemma SameExecuting(p: Pass, q: Pass, pol: PolicySpec, s: Status)
    requires OnlyGatesDiffer(p, q) && VerdictAt(p, pol, GateUncordon) == VerdictAt(q, pol, GateUncordon)
    ensures Executing(p, pol, s) == Executing(q, pol, s)
  {
    SameAdvance(p, q, pol, s);
    SameCompletion(p, q, s);
  }

  lemma SamePlanned(p: Pass, q: Pass, pol: PolicySpec, s: Status)
    requires OnlyGatesDiffer(p, q)
    ensures Planned(p, pol, s) == Planned(q, pol, s)
  {
    Gates.SameRelease(p, q, s.nodes, |s.nodes|);
  }

  lemma SameHeld(p: Pass, q: Pass, s: Status)
    requires OnlyGatesDiffer(p, q)
    ensures Paused(p, s) == Paused(q, s) && Blocked(p, s) == Blocked(q, s)
  {
    SameCompletion(p, q, s);
  }

  /** Once a request is planned, no decision on the drain gate changes anything: passes that differ only in the decisions
    * are the same, executing ones as long as the verdict on the uncordon gate is. */
  lemma DrainDecisionComesTooLate(p: Pass, q: Pass, s: Status)
    requires OnlyGatesDiffer(p, q) && s.phase in {PhasePlanned, PhaseExecuting, PhasePaused, PhaseBlocked}
    requires s.phase == PhaseExecuting && p.policy.Some? ==>
               VerdictAt(p, PolicyOf(p), GateUncordon) == VerdictAt(q, PolicyOf(q), GateUncordon)
    ensures Reconcile(p, s) == Reconcile(q, s)
  {
    SameCompletion(p, q, s);
    if Proceeds(p, s) {
      match s.phase
      case PhasePlanned => SamePlanned(p, q, PolicyOf(p), s);
      case PhaseExecuting => SameExecuting(p, q, PolicyOf(p), s);
      case PhasePaused => SameHeld(p, q, s);
      case PhaseBlocked => SameHeld(p, q, s);
    }
  }

  // ----- uncordons of an abort -----

  /** What the pass reads makes it abort: a cancel, or - unless a pause comes first - a policy that cannot be resolved, or
    * the global timeout of a request that is executing or blocked. */
  predicate AbortsOn(p: Pass, s: Status) {
    || p.spec.cancel
    || (!(p.spec.pause && CanPause(s.phase))
        && (p.policy.None? || (s.phase in {PhaseExecuting, PhaseBlocked} && GlobalTimedOut(p, s))))
  }

  /** Whatever the visit leaves, without failed nodes the request goes on, is blocked or is finished. */
  lemma ConcludeEnds(p: Pass, s: Status, o: LoopOut)
    requires s.ending.Running? && NoReplacement(o.nodes)
    ensures AfterBatch(p, s, o).mem.ending in {Running, Finished}
  {
    CountBounds(o.nodes, {NodeFailed});
  }

  lemma AdvanceEnds(p: Pass, pol: PolicySpec, s: Status)
    requires StatusOk(s) && s.phase == PhaseExecuting && !p.spec.ReplaceNodes() && NoReplacement(s.nodes)
    ensures Advance(p, pol, s).mem.ending in {Running, Finished}
  {
    assert s.ending.Running?;
    CountBounds(s.nodes, {NodeFailed});
    LoopNoReplacement(ContextOf(p, pol), p.answers, CurrentBatch(s.nodes), s.nodes, CountIn(s.nodes, IN_FLIGHT), |s.nodes|);
    ConcludeEnds(p, s, RunBatch(p, pol, s));
  }

  lemma ExecutingEnds(p: Pass, pol: PolicySpec, s: Status)
    requires StatusOk(s) && s.phase == PhaseExecuting && !p.spec.ReplaceNodes() && NoReplacement(s.nodes)
    ensures Executing(p, pol, s).mem.ending in {Aborted, CancelledByUser} <==> GlobalTimedOut(p, s)
  {
    CountBounds(s.nodes, {NodeFailed});
    AdvanceEnds(p, pol, s);
  }

  lemma OtherEnds(p: Pass, pol: PolicySpec, s: Status)
    requires StatusOk(s) && s.nodes != [] && s.phase in {PhaseAwaitingApproval, PhasePaused}
    ensures Dispatch(p, pol, s).mem.ending !in {Aborted, CancelledByUser}
  {
  }

  lemma BlockedEnds(p: Pass, s: Status)
    requires StatusOk(s) && s.nodes != [] && s.phase == PhaseBlocked
    ensures Blocked(p, s).mem.ending in {Aborted, CancelledByUser} <==> GlobalTimedOut(p, s)
  {
  }

  /** With records and no replacement, a pass aborts the request if and only if what it reads says so. */
  lemma AbortsIff(p: Pass, s: Status)
    requires StatusOk(s) && s.nodes != [] && !IsTerminal(s.phase) && !p.spec.ReplaceNodes() && NoReplacement(s.nodes)
    ensures Aborts(p, s) <==> AbortsOn(p, s)
  {
    if Proceeds(p, s) {
      match s.phase
      case PhaseExecuting => ExecutingEnds(p, PolicyOf(p), s);
      case PhaseAwaitingApproval => OtherEnds(p, PolicyOf(p), s);
      case PhasePaused => OtherEnds(p, PolicyOf(p), s);
      case PhaseBlocked => BlockedEnds(p, s);
    }
  }

  /** One of the first k records is of the node and may hold it. */
  ghost predicate Releasable(ns: seq<NodeRec>, k: nat, n: string)
    requires k <= |ns|
  {
    exists i :: 0 <= i < k && ns[i].node == n
                && ns[i].phase in {NodeCordoning, NodeDraining, NodePostCheck, NodeUncordoning, NodeBlocked}
  }

  ghost predicate AbortUncordonIn(es: seq<Event>, n: string) {
    exists e :: e in es && Evictions.AbortUncordons(e, n)
  }

  lemma {:induction false} ReleaseIff(p: Pass, ns: seq<NodeRec>, k: nat, n: string)
    requires k <= |ns|
    ensures AbortUncordonIn(ReleaseTo(p, ns, k), n) <==> Releasable(ns, k, n)
  {
    if k > 0 {
      ReleaseIff(p, ns, k - 1, n);
      var before := ReleaseTo(p, ns, k - 1);
      var e := UncordonCall(ns[k - 1].node, AnswerAt(p.answers, k - 1).uncordonOk, true);
      if ShouldRelease(ns[k - 1].phase) {
        assert ReleaseTo(p, ns, k) == before + [e];
        assert AbortUncordonIn(before + [e], n) <==> AbortUncordonIn(before, n) || Evictions.AbortUncordons(e, n) by {
          assert e in before + [e];
          if x :| x in before && Evictions.AbortUncordons(x, n) {
            assert x in before + [e];
          }
        }
      } else {
        assert ReleaseTo(p, ns, k) == before;
      }
      assert Releasable(ns, k, n) <==> Releasable(ns, k - 1, n) || (ns[k - 1].node == n && ShouldRelease(ns[k - 1].phase));
    }
  }

  lemma AbortKeepsNodes(p: Pass, s: Status)
    requires AbortsOn(p, s) && (s.phase == PhasePlanned ==> s.nodes == [])
    requires Aborts(p, s) && StatusOk(s)
    ensures NodesAfter(p, s) == s.nodes || s.nodes == []
  {
  }

  /** Without replacement, a pass uncordons a node outside a step if and only if what it reads aborts a request that returns
    * its nodes, and some record of the node says that it may be cordoned: no gate is asked. */
  lemma AbortUncordonIff(p: Pass, s: Status, n: string)
    requires StatusOk(s) && s.nodes != [] && !IsTerminal(s.phase) && !p.spec.ReplaceNodes() && NoReplacement(s.nodes)
    ensures AbortUncordonIn(Reconcile(p, s).events, n)
            <==> AbortsOn(p, s) && p.spec.uncordonAfter && Releasable(s.nodes, |s.nodes|, n)
  {
    AbortsIff(p, s);
    Evictions.AbortsComeLast(p, s);
    ReleaseIff(p, NodesAfter(p, s), |NodesAfter(p, s)|, n);
    OnlyReleaseAborts(Judgement(p, s) + BatchCalls(p, s), ReleaseCalls(p, s), n);
    if Aborts(p, s) {
      AbortKeepsNodes(p, s);
    }
  }

  lemma OnlyReleaseAborts(a: seq<Event>, b: seq<Event>, n: string)
    requires Evictions.AbortFree(a)
    ensures AbortUncordonIn(a + b, n) <==> AbortUncordonIn(b, n)
  {
    if e :| e in b && Evictions.AbortUncordons(e, n) {
      assert e in a + b;
    }
  }
}
