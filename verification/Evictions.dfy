/** Whether a node still is cordoned when pods are evicted from it. */
module Evictions {
  import opened Api
  import opened NodeMachine
  import opened Passes
  import opened Invariant
  import opened PassFacts
  import opened StateMachine
  import opened Journal
  import opened Cordons
  import Caps
  import Gates
  import Lifecycle
  import Planner

  /** The nodes that are cordoned for certain: by a successful call, with no attempt to uncordon them since. */
  function MustBe(tr: seq<Event>): set<string> {
    if tr == [] then {}
    else
      var before := MustBe(tr[..|tr| - 1]);
      match tr[|tr| - 1]
      case CordonCall(n, ok) => if ok then before + {n} else before
      case UncordonCall(n, _, _) => before - {n}
      case _ => before
  }

  predicate Uncordons(e: Event, n: string) {
    e.UncordonCall? && e.node == n
  }

  predicate AbortUncordons(e: Event, n: string) {
    Uncordons(e, n) && e.abort
  }

  predicate StepUncordons(e: Event, n: string) {
    Uncordons(e, n) && !e.abort
  }

  /** The call at m cordons the node, and no later one tries to uncordon it. */
  ghost predicate HeldSince(tr: seq<Event>, n: string, m: nat) {
    m < |tr| && tr[m] == CordonCall(n, true) && forall j | m < j < |tr| :: !Uncordons(tr[j], n)
  }

  lemma {:induction false} MustBeMeans(tr: seq<Event>, n: string)
    ensures n in MustBe(tr) <==> exists m: nat :: HeldSince(tr, n, m)
  {
    if tr != [] {
      var k := |tr| - 1;
      MustBeMeans(tr[..k], n);
      if m: nat :| HeldSince(tr[..k], n, m) && !Uncordons(tr[k], n) {
        assert HeldSince(tr, n, m);
      }
      if tr[k] == CordonCall(n, true) {
        assert HeldSince(tr, n, k);
      }
      if m: nat :| HeldSince(tr, n, m) && m < k {
        assert HeldSince(tr[..k], n, m);
        assert !Uncordons(tr[k], n);
      }
    }
  }

  // ----- one record per node -----

  ghost predicate DistinctTargets(ps: seq<Pass>) {
    forall i | 0 <= i < |ps| && ps[i].target.Some? :: DistinctNames(ps[i].target.value.nodes)
  }

  ghost predicate DistinctNames(ts: seq<TargetNode>) {
    forall i, j | 0 <= i < j < |ts| :: ts[i].name != ts[j].name
  }

  ghost predicate DistinctNodes(ns: seq<NodeRec>) {
    forall i, j | 0 <= i < j < |ns| :: ns[i].node != ns[j].node
  }

  lemma StartIsDistinct(p: Pass, s: Status)
    requires Starts(p, s) && DistinctNames(p.target.value.nodes)
    ensures DistinctNodes(InitNodes(PlanFor(p, PolicyOf(p), p.target.value).batches))
  {
    var ns := InitNodes(PlanFor(p, PolicyOf(p), p.target.value).batches);
    PlanRecords(p, PolicyOf(p), p.target.value);
    SameMultisetDistinct(ns, p.target.value.nodes);
  }

  lemma SameMultisetDistinct(ns: seq<NodeRec>, ts: seq<TargetNode>)
    requires multiset(NodeNames(ns)) == multiset(Planner.Names(ts)) && DistinctNames(ts)
    ensures DistinctNodes(ns)
  {
    forall i, j | 0 <= i < j < |ns| ensures ns[i].node != ns[j].node {
      if ns[i].node == ns[j].node {
        Planner.CountTwice(NodeNames(ns), i, j);
        Planner.DistinctCount(Planner.Names(ts), ns[i].node);
      }
    }
  }

  lemma DistinctKept(p: Pass, s: Status)
    requires StatusOk(s) && DistinctNodes(s.nodes)
    requires p.target.Some? ==> DistinctNames(p.target.value.nodes)
    ensures DistinctNodes(NodesAfter(p, s))
  {
    if s.nodes == [] {
      if Starts(p, s) {
        StartIsDistinct(p, s);
      }
    } else {
      Lifecycle.ShapeKept(p, s);
    }
  }

  // ----- no eviction after a step uncordon -----

  /** No step has tried to uncordon the node. */
  ghost predicate StepFree(tr: seq<Event>, n: string) {
    forall e | e in tr :: !StepUncordons(e, n)
  }

  /** Only nodes at or past their uncordoning have been uncordoned by a step. */
  ghost predicate NotYetReturned(ns: seq<NodeRec>, tr: seq<Event>) {
    && (forall i | 0 <= i < |ns| && ns[i].phase !in {NodeUncordoning, NodeCompleted} :: StepFree(tr, ns[i].node))
    && (ns == [] ==> forall n :: StepFree(tr, n))
  }

  ghost predicate NoEvictionAfterReturn(tr: seq<Event>) {
    forall j, k | 0 <= j < k < |tr| && tr[k].EvictRound? :: !StepUncordons(tr[j], tr[k].node)
  }

  lemma StaysReturning(p: Pass, s: Status, i: nat)
    requires StatusOk(s) && i < |s.nodes| && s.nodes[i].phase in {NodeUncordoning, NodeCompleted}
    ensures |NodesAfter(p, s)| == |s.nodes| && NodesAfter(p, s)[i].node == s.nodes[i].node
    ensures NodesAfter(p, s)[i].phase in {NodeUncordoning, NodeCompleted}
  {
    Lifecycle.ShapeKept(p, s);
    if RunsBatch(p, s) {
      var c, b := ContextOf(p, PolicyOf(p)), CurrentBatch(s.nodes);
      SteppedOnce(c, p.answers, b, s.nodes, CountIn(s.nodes, IN_FLIGHT), |s.nodes|);
      assert Stepped(c, p.answers, b, s.nodes[i], NodesAfter(p, s)[i], i);
    }
  }

  /** With one record per node, only that record's phase announces calls on the node. */
  lemma OnlyItsPhase(ns: seq<NodeRec>, i: nat, phase: NodePhase)
    requires DistinctNodes(ns) && i < |ns| && ns[i].phase != phase
    ensures !InPhase(ns, ns[i].node, phase)
  {
  }

  /** A pass tries a step uncordon only on the node of a record that is uncordoning. */
  lemma PassStepFree(p: Pass, s: Status, i: nat)
    requires StatusOk(s) && DistinctNodes(s.nodes) && i < |s.nodes| && s.nodes[i].phase != NodeUncordoning
    ensures StepFree(Reconcile(p, s).events, s.nodes[i].node)
  {
    CallsAreWrittenAhead(p, s);
    OnlyItsPhase(s.nodes, i, NodeUncordoning);
    AnnouncedStepFree(Reconcile(p, s).events, s.nodes, s.nodes[i].node);
  }

  lemma AnnouncedStepFree(es: seq<Event>, ns: seq<NodeRec>, n: string)
    requires forall e | e in es :: Announced(e, ns)
    requires !InPhase(ns, n, NodeUncordoning)
    ensures StepFree(es, n)
  {
  }

  lemma StepFreeConcat(a: seq<Event>, b: seq<Event>, n: string)
    requires StepFree(a, n) && StepFree(b, n)
    ensures StepFree(a + b, n)
  {
  }

  lemma RecordlessStepFree(p: Pass, s: Status, n: string)
    requires StatusOk(s) && s.nodes == []
    ensures StepFree(Reconcile(p, s).events, n)
  {
    CallsAreWrittenAhead(p, s);
  }

  /** After a pass the calls still are what the records, written or not, allow. */
  lemma ReturnedKept(p: Pass, s: Status, tr: seq<Event>, ns: seq<NodeRec>)
    requires StatusOk(s) && DistinctNodes(s.nodes) && NotYetReturned(s.nodes, tr)
    requires ns == s.nodes || ns == NodesAfter(p, s)
    ensures NotYetReturned(ns, tr + Reconcile(p, s).events)
  {
    var es := Reconcile(p, s).events;
    if s.nodes == [] {
      forall n ensures StepFree(tr + es, n) {
        RecordlessStepFree(p, s, n);
        StepFreeConcat(tr, es, n);
      }
    } else {
      Lifecycle.ShapeKept(p, s);
      forall i | 0 <= i < |ns| && ns[i].phase !in {NodeUncordoning, NodeCompleted} ensures StepFree(tr + es, ns[i].node) {
        if s.nodes[i].phase in {NodeUncordoning, NodeCompleted} {
          StaysReturning(p, s, i);
        }
        PassStepFree(p, s, i);
        StepFreeConcat(tr, es, s.nodes[i].node);
      }
    }
  }

  lemma EvictsUnreturned(p: Pass, s: Status, tr: seq<Event>, n: string, blocking: Option<nat>)
    requires StatusOk(s) && DistinctNodes(s.nodes) && NotYetReturned(s.nodes, tr)
    requires EvictRound(n, blocking) in Reconcile(p, s).events
    ensures StepFree(tr + Reconcile(p, s).events, n)
  {
    CallsAreWrittenAhead(p, s);
    assert InPhase(s.nodes, n, NodeDraining);
    var i :| 0 <= i < |s.nodes| && s.nodes[i].node == n && s.nodes[i].phase == NodeDraining;
    PassStepFree(p, s, i);
    StepFreeConcat(tr, Reconcile(p, s).events, n);
  }

  lemma NoneAfterReturnKept(p: Pass, s: Status, tr: seq<Event>)
    requires StatusOk(s) && DistinctNodes(s.nodes) && NotYetReturned(s.nodes, tr) && NoEvictionAfterReturn(tr)
    ensures NoEvictionAfterReturn(tr + Reconcile(p, s).events)
  {
    var es := Reconcile(p, s).events;
    var all := tr + es;
    forall j, k | 0 <= j < k < |all| && all[k].EvictRound? ensures !StepUncordons(all[j], all[k].node) {
      if k < |tr| {
        assert !StepUncordons(tr[j], tr[k].node);
      } else {
        assert all[k] in es;
        EvictsUnreturned(p, s, tr, all[k].node, all[k].blocking);
        assert all[j] in all;
      }
    }
  }

  ghost predicate TraceOk(w: World) {
    && StatusOk(w.status) && DistinctNodes(w.status.nodes)
    && NotYetReturned(w.status.nodes, w.trace) && NoEvictionAfterReturn(w.trace)
  }

  lemma TraceOkNext(w: World, p: Pass)
    requires TraceOk(w) && (p.target.Some? ==> DistinctNames(p.target.value.nodes))
    ensures TraceOk(Next(w, p))
  {
    PassKeepsStatus(p, w.status);
    PassNodes(p, w.status);
    DistinctKept(p, w.status);
    ReturnedKept(p, w.status, w.trace, Next(w, p).status.nodes);
    NoneAfterReturnKept(p, w.status, w.trace);
  }

  lemma {:induction false} TraceAlwaysOk(ps: seq<Pass>)
    requires DistinctTargets(ps)
    ensures TraceOk(Run(ps))
  {
    if ps != [] {
      TraceAlwaysOk(ps[..|ps| - 1]);
      TraceOkNext(Run(ps[..|ps| - 1]), ps[|ps| - 1]);
    }
  }

  // ----- when an evicted node is cordoned -----

  /** The node is cordoned again between the calls at j and k. */
  ghost predicate CordonedBetween(tr: seq<Event>, n: string, j: int, k: int) {
    exists m :: j < m < k && 0 <= m < |tr| && tr[m] == CordonCall(n, true)
  }

  /** Every abort uncordon of the node before the call at k is made up for by a later cordon before it. */
  ghost predicate NoOpenAbort(tr: seq<Event>, n: string, k: nat)
    requires k <= |tr|
  {
    forall j | 0 <= j < k && AbortUncordons(tr[j], n) :: CordonedBetween(tr, n, j, k)
  }

  lemma {:induction false} LastCordon(tr: seq<Event>, n: string) returns (m: nat)
    requires CordonCall(n, true) in tr
    ensures m < |tr| && tr[m] == CordonCall(n, true) && forall j | m < j < |tr| :: tr[j] != CordonCall(n, true)
  {
    var k := |tr| - 1;
    if tr[k] == CordonCall(n, true) {
      m := k;
    } else {
      m := LastCordon(tr[..k], n);
    }
  }

  lemma CordonedIffNoOpenAbort(tr: seq<Event>, k: nat)
    requires k < |tr| && tr[k].EvictRound?
    requires CordonCall(tr[k].node, true) in tr[..k] && NoEvictionAfterReturn(tr)
    ensures tr[k].node in MustBe(tr[..k]) <==> NoOpenAbort(tr, tr[k].node, k)
  {
    var n, before := tr[k].node, tr[..k];
    MustBeMeans(before, n);
    if m: nat :| HeldSince(before, n, m) {
      forall j | 0 <= j < k && AbortUncordons(tr[j], n) ensures CordonedBetween(tr, n, j, k) {
        assert before[j] == tr[j] && before[m] == tr[m];
        assert j < m;
      }
    }
    var m := LastCordon(before, n);
    NoneBetween(tr, n, m, k);
    if NoOpenAbort(tr, n, k) {
      forall j | m < j < k ensures !Uncordons(before[j], n) {
        assert before[j] == tr[j];
      }
      assert HeldSince(before, n, m);
    }
  }

  lemma NoneBetween(tr: seq<Event>, n: string, m: nat, k: nat)
    requires k <= |tr| && forall j | m < j < k :: tr[..k][j] != CordonCall(n, true)
    ensures forall j | m <= j < k :: !CordonedBetween(tr, n, j, k)
  {
    assert forall j | 0 <= j < k :: tr[..k][j] == tr[j];
  }

  /** On every run over targets with distinct names, a node is certain to be cordoned when it is evicted from if and only
    * if it has been cordoned again since each abort that tried to uncordon it. */
  lemma EvictedIsCordonedIff(ps: seq<Pass>, k: nat)
    requires DistinctTargets(ps) && k < |Run(ps).trace| && Run(ps).trace[k].EvictRound?
    ensures Run(ps).trace[k].node in MustBe(Run(ps).trace[..k]) <==> NoOpenAbort(Run(ps).trace, Run(ps).trace[k].node, k)
  {
    var tr := Run(ps).trace;
    TraceAlwaysOk(ps);
    EveryCallJustified(ps);
    assert Justified(tr[k], tr[..k]);
    CordonedIffNoOpenAbort(tr, k);
  }

  // ----- aborts whose status is stored -----

  /** After an abort uncordon come only abort uncordons. */
  ghost predicate AbortsLast(tr: seq<Event>) {
    forall j, k | 0 <= j < k < |tr| && tr[j].UncordonCall? && tr[j].abort :: tr[k].UncordonCall? && tr[k].abort
  }

  /** No abort that returns nodes has lost its status. */
  predicate NoLostAbort(ps: seq<Pass>) {
    ps == [] || (NoLostAbort(ps[..|ps| - 1]) && (Aborts(ps[|ps| - 1], Run(ps[..|ps| - 1]).status) ==> ps[|ps| - 1].writeOk))
  }

  ghost predicate AbortFree(tr: seq<Event>) {
    forall e | e in tr :: !(e.UncordonCall? && e.abort)
  }

  /** A pass's calls: none of them abort uncordons, then only such, and those only if it aborts. */
  lemma AbortsComeLast(p: Pass, s: Status)
    requires StatusOk(s)
    ensures Reconcile(p, s).events == (Judgement(p, s) + BatchCalls(p, s)) + ReleaseCalls(p, s)
    ensures AbortFree(Judgement(p, s) + BatchCalls(p, s))
    ensures forall e | e in ReleaseCalls(p, s) :: e.UncordonCall? && e.abort
  {
    PassCalls(p, s);
    Gates.BatchEvents(p, s);
    ReleaseIsAbort(p, NodesAfter(p, s), |NodesAfter(p, s)|);
  }

  lemma PassAbortsLast(p: Pass, s: Status, tr: seq<Event>)
    requires StatusOk(s) && !IsTerminal(s.phase) && AbortFree(tr)
    ensures AbortsLast(tr + Reconcile(p, s).events)
    ensures !Aborts(p, s) ==> AbortFree(tr + Reconcile(p, s).events)
  {
    AbortsComeLast(p, s);
    Regrouped(tr, Judgement(p, s) + BatchCalls(p, s), ReleaseCalls(p, s));
    AbortsAtEnd(tr + (Judgement(p, s) + BatchCalls(p, s)), ReleaseCalls(p, s));
  }

  lemma Regrouped(a: seq<Event>, b: seq<Event>, c: seq<Event>)
    ensures a + (b + c) == a + b + c
  {
  }

  lemma AbortsAtEnd(a: seq<Event>, b: seq<Event>)
    requires AbortFree(a) && forall e | e in b :: e.UncordonCall? && e.abort
    ensures AbortsLast(a + b)
    ensures b == [] ==> AbortFree(a + b)
  {
  }

  lemma AbortEnds(p: Pass, s: Status)
    requires StatusOk(s) && Aborts(p, s)
    ensures Reconcile(p, s).wrote && IsTerminal(Reconcile(p, s).mem.phase)
  {
    PassKeepsStatus(p, s);
    AbortWrites(p, s);
  }

  lemma AbortWrites(p: Pass, s: Status)
    requires StatusOk(s) && Aborts(p, s)
    ensures Reconcile(p, s).wrote
  {
    assert s.ending.Running?;
    UnwrittenEndsNothing(p, s);
  }

  /** A pass that writes no status ends nothing. */
  lemma UnwrittenEndsNothing(p: Pass, s: Status)
    ensures Reconcile(p, s).wrote || Reconcile(p, s).mem.ending == s.ending
  {
    if Proceeds(p, s) {
      UnwrittenPhase(p, PolicyOf(p), s);
    }
  }

  lemma UnwrittenPhase(p: Pass, pol: PolicySpec, s: Status)
    ensures Dispatch(p, pol, s).wrote || Dispatch(p, pol, s).mem.ending == s.ending
  {
    match s.phase
    case PhaseExecuting => ExecutingWrites(p, pol, s);
    case PhasePending => ValidatingEndsNothing(p, pol, s);
    case PhaseValidating => ValidatingEndsNothing(p, pol, s);
    case PhasePlanned => PlannedEndsNothing(p, pol, s);
    case _ =>
  }

  lemma ValidatingEndsNothing(p: Pass, pol: PolicySpec, s: Status)
    ensures Validating(p, pol, s).wrote || Validating(p, pol, s).mem.ending == s.ending
  {
  }

  lemma PlannedEndsNothing(p: Pass, pol: PolicySpec, s: Status)
    ensures Planned(p, pol, s).wrote || Planned(p, pol, s).mem.ending == s.ending
  {
  }

  lemma ExecutingWrites(p: Pass, pol: PolicySpec, s: Status)
    ensures Executing(p, pol, s).wrote
  {
  }

  lemma {:induction false} StoredAbortsLast(ps: seq<Pass>)
    requires NoLostAbort(ps)
    ensures AbortsLast(Run(ps).trace) && (IsTerminal(Run(ps).status.phase) || AbortFree(Run(ps).trace))
  {
    if ps != [] {
      var n := |ps| - 1;
      var w := Run(ps[..n]);
      StoredAbortsLast(ps[..n]);
      StatusAlwaysOk(ps[..n]);
      if IsTerminal(w.status.phase) {
        Lifecycle.IdleNext(w, ps[n]);
      } else {
        PassAbortsLast(ps[n], w.status, w.trace);
        if Aborts(ps[n], w.status) {
          AbortEnds(ps[n], w.status);
        }
      }
    }
  }

  /** As long as no abort loses its status, every node evicted from is certain to be cordoned. */
  lemma {:induction false} EvictedIsCordoned(ps: seq<Pass>, k: nat)
    requires DistinctTargets(ps) && NoLostAbort(ps) && k < |Run(ps).trace| && Run(ps).trace[k].EvictRound?
    ensures Run(ps).trace[k].node in MustBe(Run(ps).trace[..k])
  {
    StoredAbortsLast(ps);
    EvictedIsCordonedIff(ps, k);
  }

  // ----- aborts whose status is lost -----

  lemma {:induction false} EventsGrow(c: StepContext, answers: seq<NodeAnswer>, b: int, ns: seq<NodeRec>, fl: int, k: nat, m: nat)
    requires k <= m <= |ns|
    ensures forall e | e in StepTo(c, answers, b, ns, fl, k).events :: e in StepTo(c, answers, b, ns, fl, m).events
    decreases m
  {
    if k < m {
      EventsGrow(c, answers, b, ns, fl, k, m - 1);
    }
  }

  /** A draining node that is visited is evicted from. */
  lemma {:induction false} VisitedIsEvicted(c: StepContext, answers: seq<NodeAnswer>, b: int, ns: seq<NodeRec>, fl: int, i: nat)
    requires i < |ns| && ns[i].batch == b && ns[i].phase == NodeDraining && !StepTo(c, answers, b, ns, fl, i).err
    ensures exists blocking :: EvictRound(ns[i].node, blocking) in StepTo(c, answers, b, ns, fl, |ns|).events
  {
    var a, q := AnswerAt(answers, i), StepTo(c, answers, b, ns, fl, i);
    var blocking := if a.evict.None? then None else Some(a.evict.value.blocking);
    assert Step(c, a, ns[i], q.inFlight).events == [EvictRound(ns[i].node, blocking)];
    assert EvictRound(ns[i].node, blocking) in StepTo(c, answers, b, ns, fl, i + 1).events;
    EventsGrow(c, answers, b, ns, fl, i + 1, |ns|);
  }

  lemma ReachedIsEvicted(p: Pass, s: Status, i: nat)
    requires StatusOk(s) && Reached(p, s, i) && s.nodes[i].phase == NodeDraining
    ensures exists blocking :: EvictRound(s.nodes[i].node, blocking) in Reconcile(p, s).events
  {
    VisitedIsEvicted(ContextOf(p, PolicyOf(p)), p.answers, CurrentBatch(s.nodes), s.nodes, CountIn(s.nodes, IN_FLIGHT), i);
    PassCalls(p, s);
    var blocking :| EvictRound(s.nodes[i].node, blocking) in BatchCalls(p, s);
    assert EvictRound(s.nodes[i].node, blocking) in Reconcile(p, s).events;
  }

  lemma {:induction false} ReleaseReaches(p: Pass, ns: seq<NodeRec>, k: nat, i: nat)
    requires i < k <= |ns| && ShouldRelease(ns[i].phase)
    ensures UncordonCall(ns[i].node, AnswerAt(p.answers, i).uncordonOk, true) in ReleaseTo(p, ns, k)
  {
    if i < k - 1 {
      ReleaseReaches(p, ns, k - 1, i);
    }
  }

  /** An abort of a request that returns its nodes, outside a visit, with its status lost. */
  predicate LostAbort(p: Pass, s: Status) {
    Aborts(p, s) && Releases(p.spec) && !p.writeOk && !RunsBatch(p, s)
  }

  /** An abort outside a visit leaves the records as they are. */
  lemma AbortNodes(p: Pass, s: Status)
    requires StatusOk(s) && Aborts(p, s) && !RunsBatch(p, s)
    ensures NodesAfter(p, s) == s.nodes
  {
    if Starts(p, s) {
      StartIsBegin(p, PolicyOf(p), s, PlanFor(p, PolicyOf(p), p.target.value));
    }
  }

  lemma LostAbortReleases(w: World, p: Pass, i: nat)
    requires StatusOk(w.status) && LostAbort(p, w.status)
    requires i < |w.status.nodes| && ShouldRelease(w.status.nodes[i].phase)
    ensures var es := Reconcile(p, w.status).events;
            && Next(w, p).status == w.status && Next(w, p).trace == w.trace + es
            && (forall n, ok :: CordonCall(n, ok) !in es)
            && exists e :: e in es && AbortUncordons(e, w.status.nodes[i].node)
  {
    var s := w.status;
    AbortsComeLast(p, s);
    AbortNodes(p, s);
    ReleaseReaches(p, s.nodes, |s.nodes|, i);
    var e := UncordonCall(s.nodes[i].node, AnswerAt(p.answers, i).uncordonOk, true);
    assert AbortUncordons(e, s.nodes[i].node) && e in Reconcile(p, s).events;
    Gates.JudgementIsVerdict(p, s);
  }

  /** The pass cordons no node with a draining record. */
  lemma NoCordonOfDraining(p: Pass, s: Status, i: nat)
    requires StatusOk(s) && DistinctNodes(s.nodes) && i < |s.nodes| && s.nodes[i].phase == NodeDraining
    ensures CordonCall(s.nodes[i].node, true) !in Reconcile(p, s).events
  {
    CallsAreWrittenAhead(p, s);
    OnlyItsPhase(s.nodes, i, NodeCordoning);
  }

  /** A node uncordoned at u and not cordoned from there to k is not certain to be cordoned at k. */
  lemma NotHeld(tr: seq<Event>, n: string, u: nat, k: nat)
    requires u < k <= |tr| && Uncordons(tr[u], n) && forall j | u < j < k :: tr[j] != CordonCall(n, true)
    ensures n !in MustBe(tr[..k])
  {
    MustBeMeans(tr[..k], n);
    assert forall j | 0 <= j < k :: tr[..k][j] == tr[j];
  }

  /** An eviction after an abort uncordon of the same node with no cordon in between is on a node not certain to be
    * cordoned. */
  lemma OpenAbortExposes(tr: seq<Event>, a: seq<Event>, b: seq<Event>, n: string, blocking: Option<nat>) returns (k: nat)
    requires exists e :: e in a && AbortUncordons(e, n)
    requires CordonCall(n, true) !in a && CordonCall(n, true) !in b && EvictRound(n, blocking) in b
    ensures var all := tr + a + b;
            k < |all| && all[k] == EvictRound(n, blocking) && n !in MustBe(all[..k])
  {
    var all := tr + a + b;
    var x :| 0 <= x < |a| && AbortUncordons(a[x], n);
    var y :| 0 <= y < |b| && b[y] == EvictRound(n, blocking);
    k := |tr| + |a| + y;
    forall j | |tr| + x < j < k ensures all[j] != CordonCall(n, true) {
      if j < |tr| + |a| {
        assert all[j] == a[j - |tr|];
      } else {
        assert all[j] == b[j - |tr| - |a|];
      }
    }
    NotHeld(all, n, |tr| + x, k);
  }

  /** Whenever an abort loses its status while a node is draining, the next pass that reaches that node evicts from it
    * though it is not certain to be cordoned. */
  lemma LostAbortExposes(ps: seq<Pass>, p: Pass, q: Pass, i: nat) returns (k: nat)
    requires DistinctTargets(ps) && LostAbort(p, Run(ps).status) && Reached(q, Run(ps).status, i)
    requires Run(ps).status.nodes[i].phase == NodeDraining
    ensures var tr := Next(Next(Run(ps), p), q).trace;
            k < |tr| && tr[k].EvictRound? && tr[k].node == Run(ps).status.nodes[i].node && tr[k].node !in MustBe(tr[..k])
  {
    var w := Run(ps);
    var n := w.status.nodes[i].node;
    TraceAlwaysOk(ps);
    LostAbortReleases(w, p, i);
    ReachedIsEvicted(q, w.status, i);
    NoCordonOfDraining(q, w.status, i);
    var a, b := Reconcile(p, w.status).events, Reconcile(q, w.status).events;
    var blocking :| EvictRound(n, blocking) in b;
    k := OpenAbortExposes(w.trace, a, b, n, blocking);
  }

  // ----- the condition over passes -----

  /** The pass aborts the request with its status lost, and uncordons the node though its record had left Cordoning. */
  ghost predicate ReleasesHeld(p: Pass, s: Status, n: string) {
    && Aborts(p, s) && Releases(p.spec) && !p.writeOk && |NodesAfter(p, s)| == |s.nodes|
    && exists i :: 0 <= i < |s.nodes| && s.nodes[i].node == n && s.nodes[i].phase !in {NodePending, NodeCordoning}
                   && ShouldRelease(NodesAfter(p, s)[i].phase)
  }

  /** No pass of the run has done that to the node. */
  ghost predicate NeverReleasedHeld(ps: seq<Pass>, n: string) {
    ps == [] || (NeverReleasedHeld(ps[..|ps| - 1], n) && !ReleasesHeld(ps[|ps| - 1], Run(ps[..|ps| - 1]).status, n))
  }

  /** Phases past the cordon in which a node is not being returned. */
  const HELD := {NodeDraining, NodePostCheck, NodeReplacing, NodeAwaitingReplacement, NodeBlocked, NodeFailed}

  /** The record agrees with what the passes have done to its node. */
  ghost predicate HeldOk(r: NodeRec, tr: seq<Event>, never: bool) {
    && (r.phase in HELD ==> (r.node in MustBe(tr) <==> never))
    && (r.phase in {NodePending, NodeCordoning} ==> never)
  }

  ghost predicate AllHeldOk(ps: seq<Pass>, s: Status, tr: seq<Event>) {
    && (forall i | 0 <= i < |s.nodes| :: HeldOk(s.nodes[i], tr, NeverReleasedHeld(ps, s.nodes[i].node)))
    && (s.nodes == [] ==> forall n :: NeverReleasedHeld(ps, n))
  }

  // what the calls of a pass do to one node

  lemma {:induction false} QuietCalls(tr: seq<Event>, es: seq<Event>, n: string)
    requires CordonCall(n, true) !in es && forall e | e in es :: !Uncordons(e, n)
    ensures n in MustBe(tr + es) <==> n in MustBe(tr)
  {
    MustBeMeans(tr, n);
    MustBeMeans(tr + es, n);
    var all := tr + es;
    assert forall j | |tr| <= j < |all| :: all[j] in es;
    if m: nat :| HeldSince(tr, n, m) {
      assert HeldSince(all, n, m);
    }
    if m: nat :| HeldSince(all, n, m) {
      assert m < |tr|;
      assert forall j | 0 <= j < |tr| :: all[j] == tr[j];
      assert HeldSince(tr, n, m);
    }
  }

  /** Some of the calls tries to uncordon the node. */
  ghost predicate Freed(es: seq<Event>, n: string) {
    exists e :: e in es && Uncordons(e, n)
  }

  lemma {:induction false} FreeingCalls(tr: seq<Event>, es: seq<Event>, n: string)
    requires CordonCall(n, true) !in es && Freed(es, n)
    ensures n !in MustBe(tr + es)
  {
    var x :| 0 <= x < |es| && Uncordons(es[x], n);
    var all := tr + es;
    assert all[..|all|] == all;
    assert forall j | |tr| <= j < |all| :: all[j] in es;
    NotHeld(all, n, |tr| + x, |all|);
  }

  lemma {:induction false} CordoningCalls(tr: seq<Event>, es: seq<Event>, n: string)
    requires CordonCall(n, true) in es && forall e | e in es :: !Uncordons(e, n)
    ensures n in MustBe(tr + es)
  {
    var x :| 0 <= x < |es| && es[x] == CordonCall(n, true);
    var all := tr + es;
    MustBeMeans(all, n);
    assert forall j | |tr| <= j < |all| :: all[j] in es;
    assert HeldSince(all, n, |tr| + x);
  }

  /** One record of a node: only its own phase says whether an abort releases it. */
  lemma {:induction false} ReleaseOfOne(p: Pass, ns: seq<NodeRec>, k: nat, i: nat)
    requires i < |ns| && k <= |ns| && DistinctNodes(ns)
    ensures (exists e :: e in ReleaseTo(p, ns, k) && AbortUncordons(e, ns[i].node)) <==> i < k && ShouldRelease(ns[i].phase)
  {
    if k > 0 {
      ReleaseOfOne(p, ns, k - 1, i);
      var before := ReleaseTo(p, ns, k - 1);
      var e := UncordonCall(ns[k - 1].node, AnswerAt(p.answers, k - 1).uncordonOk, true);
      if ShouldRelease(ns[k - 1].phase) {
        assert ReleaseTo(p, ns, k) == before + [e];
        assert e in ReleaseTo(p, ns, k);
        assert AbortUncordons(e, ns[i].node) <==> i == k - 1;
        assert forall x | x in before :: x in ReleaseTo(p, ns, k);
      } else {
        assert ReleaseTo(p, ns, k) == before;
      }
    }
  }

  /** A pass frees a held node exactly when it aborts and its record says so. */
  lemma HeldCalls(p: Pass, s: Status, i: nat)
    requires StatusOk(s) && DistinctNodes(s.nodes) && i < |s.nodes| && s.nodes[i].phase in HELD && !IsTerminal(s.phase)
    ensures |NodesAfter(p, s)| == |s.nodes|
    ensures CordonCall(s.nodes[i].node, true) !in Reconcile(p, s).events
    ensures Freed(Reconcile(p, s).events, s.nodes[i].node)
            <==> Aborts(p, s) && Releases(p.spec) && ShouldRelease(NodesAfter(p, s)[i].phase)
  {
    var n, es := s.nodes[i].node, Reconcile(p, s).events;
    Lifecycle.ShapeKept(p, s);
    CallsAreWrittenAhead(p, s);
    OnlyItsPhase(s.nodes, i, NodeCordoning);
    PassStepFree(p, s, i);
    AbortsComeLast(p, s);
    ReleaseOfOne(p, NodesAfter(p, s), |NodesAfter(p, s)|, i);
    FreedOnlyLast(Judgement(p, s) + BatchCalls(p, s), ReleaseCalls(p, s), es, n);
  }

  lemma FreedOnlyLast(a: seq<Event>, b: seq<Event>, es: seq<Event>, n: string)
    requires es == a + b && AbortFree(a) && StepFree(es, n)
    ensures Freed(es, n) <==> exists e :: e in b && AbortUncordons(e, n)
  {
    if e :| e in es && Uncordons(e, n) {
      assert AbortUncordons(e, n);
      assert e in b;
    }
    if e :| e in b && AbortUncordons(e, n) {
      assert e in es && Uncordons(e, n);
    }
  }

  /** A record leaves Cordoning only by a successful cordon. */
  lemma LeavesCordoning(p: Pass, s: Status, i: nat)
    requires StatusOk(s) && i < |s.nodes| && s.nodes[i].phase == NodeCordoning && |NodesAfter(p, s)| == |s.nodes|
    requires NodesAfter(p, s)[i].phase != NodeCordoning
    ensures NodesAfter(p, s)[i].phase == NodeDraining && CordonCall(s.nodes[i].node, true) in Reconcile(p, s).events
  {
    if RunsBatch(p, s) {
      LeavesInVisit(ContextOf(p, PolicyOf(p)), p.answers, CurrentBatch(s.nodes), s.nodes, CountIn(s.nodes, IN_FLIGHT), i);
      PassCalls(p, s);
      assert CordonCall(s.nodes[i].node, true) in BatchCalls(p, s);
    }
  }

  lemma {:induction false} LeavesInVisit(c: StepContext, answers: seq<NodeAnswer>, b: int, ns: seq<NodeRec>, fl: int, i: nat)
    requires i < |ns| && ns[i].phase == NodeCordoning
    requires StepTo(c, answers, b, ns, fl, |ns|).nodes[i].phase != NodeCordoning
    ensures StepTo(c, answers, b, ns, fl, |ns|).nodes[i].phase == NodeDraining
    ensures CordonCall(ns[i].node, true) in StepTo(c, answers, b, ns, fl, |ns|).events
  {
    Caps.VisitedOnce(c, answers, b, ns, fl, i, |ns|);
    assert CordonCall(ns[i].node, true) in StepTo(c, answers, b, ns, fl, i + 1).events;
    EventsGrow(c, answers, b, ns, fl, i + 1, |ns|);
  }

  lemma ReleasesHeldIff(p: Pass, s: Status, i: nat)
    requires DistinctNodes(s.nodes) && i < |s.nodes| && |NodesAfter(p, s)| == |s.nodes| && s.nodes[i].phase in HELD
    ensures ReleasesHeld(p, s, s.nodes[i].node)
            <==> Aborts(p, s) && !p.writeOk && Releases(p.spec) && ShouldRelease(NodesAfter(p, s)[i].phase)
  {
  }

  /** The node of a held record, over the calls of a pass that frees it or not. */
  lemma HeldThrough(r: NodeRec, tr: seq<Event>, es: seq<Event>, never: bool, freed: bool)
    requires r.phase in HELD && HeldOk(r, tr, never) && CordonCall(r.node, true) !in es
    requires freed <==> Freed(es, r.node)
    ensures HeldOk(r, tr + es, never && !freed)
  {
    if freed {
      FreeingCalls(tr, es, r.node);
    } else {
      QuietCalls(tr, es, r.node);
    }
  }

  lemma FreedIff(p: Pass, s: Status, i: nat)
    requires StatusOk(s) && DistinctNodes(s.nodes) && i < |s.nodes| && s.nodes[i].phase in HELD && !IsTerminal(s.phase)
    requires !(Reconcile(p, s).wrote && p.writeOk)
    ensures CordonCall(s.nodes[i].node, true) !in Reconcile(p, s).events
    ensures ReleasesHeld(p, s, s.nodes[i].node) <==> Freed(Reconcile(p, s).events, s.nodes[i].node)
  {
    HeldCalls(p, s, i);
    ReleasesHeldIff(p, s, i);
    AbortLost(p, s);
  }

  lemma AbortLost(p: Pass, s: Status)
    requires StatusOk(s) && !(Reconcile(p, s).wrote && p.writeOk)
    ensures Aborts(p, s) ==> !p.writeOk
  {
    if Aborts(p, s) {
      AbortWrites(p, s);
    }
  }

  lemma NotReleasedYet(p: Pass, s: Status, i: nat)
    requires StatusOk(s) && DistinctNodes(s.nodes) && i < |s.nodes| && s.nodes[i].phase in {NodePending, NodeCordoning}
    ensures !ReleasesHeld(p, s, s.nodes[i].node)
  {
  }

  /** A record after a pass whose status is not stored. */
  lemma HeldUnstored(p: Pass, s: Status, tr: seq<Event>, i: nat, never: bool)
    requires StatusOk(s) && DistinctNodes(s.nodes) && i < |s.nodes| && !IsTerminal(s.phase)
    requires HeldOk(s.nodes[i], tr, never) && !(Reconcile(p, s).wrote && p.writeOk)
    ensures HeldOk(s.nodes[i], tr + Reconcile(p, s).events, never && !ReleasesHeld(p, s, s.nodes[i].node))
  {
    if s.nodes[i].phase in HELD {
      FreedIff(p, s, i);
      HeldThrough(s.nodes[i], tr, Reconcile(p, s).events, never, ReleasesHeld(p, s, s.nodes[i].node));
    } else if s.nodes[i].phase in {NodePending, NodeCordoning} {
      NotReleasedYet(p, s, i);
    }
  }

  /** A record after a pass that does not abort. */
  lemma HeldOn(p: Pass, s: Status, tr: seq<Event>, i: nat, never: bool)
    requires StatusOk(s) && DistinctNodes(s.nodes) && i < |s.nodes| && !IsTerminal(s.phase) && !Aborts(p, s)
    requires HeldOk(s.nodes[i], tr, never)
    ensures |NodesAfter(p, s)| == |s.nodes| && HeldOk(NodesAfter(p, s)[i], tr + Reconcile(p, s).events, never)
  {
    var n, es := s.nodes[i].node, Reconcile(p, s).events;
    Lifecycle.ShapeKept(p, s);
    PhaseAfter(p, s, i);
    if s.nodes[i].phase in HELD {
      HeldCalls(p, s, i);
      QuietCalls(tr, es, n);
    } else if s.nodes[i].phase == NodeCordoning && NodesAfter(p, s)[i].phase != NodeCordoning {
      LeavesCordoning(p, s, i);
      PassStepFree(p, s, i);
      Gates.PassEvents(p, s);
      CordoningCalls(tr, es, n);
    }
  }

  /** Where a record can come from. */
  lemma PhaseAfter(p: Pass, s: Status, i: nat)
    requires StatusOk(s) && i < |s.nodes| && |NodesAfter(p, s)| == |s.nodes|
    ensures NodesAfter(p, s)[i].phase in HELD ==> s.nodes[i].phase in HELD + {NodeCordoning}
    ensures NodesAfter(p, s)[i].phase in {NodePending, NodeCordoning} ==> s.nodes[i].phase in {NodePending, NodeCordoning}
  {
    if RunsBatch(p, s) {
      var c, b := ContextOf(p, PolicyOf(p)), CurrentBatch(s.nodes);
      SteppedOnce(c, p.answers, b, s.nodes, CountIn(s.nodes, IN_FLIGHT), |s.nodes|);
      SteppedPhase(c, p.answers, b, s.nodes[i], NodesAfter(p, s)[i], i);
    }
  }

  lemma SteppedPhase(c: StepContext, answers: seq<NodeAnswer>, b: int, r: NodeRec, r': NodeRec, i: nat)
    requires Stepped(c, answers, b, r, r', i)
    ensures r'.phase in HELD ==> r.phase in HELD + {NodeCordoning}
    ensures r'.phase in {NodePending, NodeCordoning} ==> r.phase in {NodePending, NodeCordoning}
  {
  }

  lemma HeldOkUnstored(ps: seq<Pass>, p: Pass)
    requires DistinctNodes(Run(ps).status.nodes) && !IsTerminal(Run(ps).status.phase)
    requires AllHeldOk(ps, Run(ps).status, Run(ps).trace) && !(Reconcile(p, Run(ps).status).wrote && p.writeOk)
    ensures AllHeldOk(ps + [p], Run(ps).status, Run(ps).trace + Reconcile(p, Run(ps).status).events)
  {
    var w := Run(ps);
    StatusAlwaysOk(ps);
    assert (ps + [p])[..|ps|] == ps;
    forall i | 0 <= i < |w.status.nodes|
      ensures HeldOk(w.status.nodes[i], w.trace + Reconcile(p, w.status).events, NeverReleasedHeld(ps + [p], w.status.nodes[i].node))
    {
      HeldUnstored(p, w.status, w.trace, i, NeverReleasedHeld(ps, w.status.nodes[i].node));
    }
  }

  lemma PendingIsHeldOk(r: NodeRec, tr: seq<Event>)
    requires r.phase == NodePending
    ensures HeldOk(r, tr, true)
  {
  }

  lemma NewRecordsOk(p: Pass, s: Status, i: nat, tr: seq<Event>)
    requires StatusOk(s) && s.nodes == [] && i < |NodesAfter(p, s)|
    ensures HeldOk(NodesAfter(p, s)[i], tr, true)
  {
    Lifecycle.StartCoversTarget(p, s);
    PendingIsHeldOk(NodesAfter(p, s)[i], tr);
  }

  lemma HeldOkStored(ps: seq<Pass>, p: Pass)
    requires DistinctNodes(Run(ps).status.nodes) && !IsTerminal(Run(ps).status.phase)
    requires AllHeldOk(ps, Run(ps).status, Run(ps).trace) && !Aborts(p, Run(ps).status)
    ensures AllHeldOk(ps + [p], Reconcile(p, Run(ps).status).mem, Run(ps).trace + Reconcile(p, Run(ps).status).events)
  {
    var w := Run(ps);
    var ns, tr := NodesAfter(p, w.status), w.trace + Reconcile(p, w.status).events;
    StatusAlwaysOk(ps);
    PassNodes(p, w.status);
    assert (ps + [p])[..|ps|] == ps;
    forall i | 0 <= i < |ns| ensures HeldOk(ns[i], tr, NeverReleasedHeld(ps + [p], ns[i].node)) {
      if w.status.nodes == [] {
        NewRecordsOk(p, w.status, i, tr);
      } else {
        Lifecycle.ShapeKept(p, w.status);
        HeldOn(p, w.status, w.trace, i, NeverReleasedHeld(ps, w.status.nodes[i].node));
      }
    }
    if ns == [] {
      NoneBefore(p, w.status);
    }
  }

  lemma NoneBefore(p: Pass, s: Status)
    requires StatusOk(s) && NodesAfter(p, s) == []
    ensures s.nodes == []
  {
    if s.nodes != [] {
      Lifecycle.ShapeKept(p, s);
    }
  }

  lemma {:induction false} AlwaysHeldOk(ps: seq<Pass>)
    requires DistinctTargets(ps)
    ensures IsTerminal(Run(ps).status.phase) || AllHeldOk(ps, Run(ps).status, Run(ps).trace)
  {
    if ps != [] {
      var n := |ps| - 1;
      var before, p := ps[..n], ps[n];
      assert before + [p] == ps;
      AlwaysHeldOk(before);
      TraceAlwaysOk(before);
      if !IsTerminal(Run(before).status.phase) {
        HeldOkNext(before, p);
      }
    }
  }

  lemma HeldOkNext(ps: seq<Pass>, p: Pass)
    requires DistinctNodes(Run(ps).status.nodes) && !IsTerminal(Run(ps).status.phase)
    requires AllHeldOk(ps, Run(ps).status, Run(ps).trace)
    ensures IsTerminal(Next(Run(ps), p).status.phase) || AllHeldOk(ps + [p], Next(Run(ps), p).status, Next(Run(ps), p).trace)
  {
    StatusAlwaysOk(ps);
    if !(Reconcile(p, Run(ps).status).wrote && p.writeOk) {
      HeldOkUnstored(ps, p);
    } else if Aborts(p, Run(ps).status) {
      AbortEnds(p, Run(ps).status);
    } else {
      HeldOkStored(ps, p);
    }
  }

  /** When a pass of a run over distinct names evicts from a node, the node is certain to be cordoned as the pass begins if
    * and only if no earlier pass has aborted, lost its status, and uncordoned the node after its record had left Cordoning. */
  lemma {:induction false} EvictedIsCordonedIffNotReleased(ps: seq<Pass>, q: Pass, n: string, blocking: Option<nat>)
    requires DistinctTargets(ps) && EvictRound(n, blocking) in Reconcile(q, Run(ps).status).events
    ensures n in MustBe(Run(ps).trace) <==> NeverReleasedHeld(ps, n)
  {
    var s := Run(ps).status;
    StatusAlwaysOk(ps);
    AlwaysHeldOk(ps);
    CallsAreWrittenAhead(q, s);
    assert InPhase(s.nodes, n, NodeDraining);
  }
}
