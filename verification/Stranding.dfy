/** Exactly when a request leaves nodes unschedulable. */
module Stranding {
  import opened Api
  import opened NodeMachine
  import opened Passes
  import opened Invariant
  import opened PassFacts
  import opened StateMachine
  import opened Cordons
  import opened Evictions
  import Caps
  import Gates
  import Journal
  import Lifecycle

  // ----- who waits at the uncordon gate -----

  ghost predicate SomeDrained(ns: seq<NodeRec>) {
    exists i :: 0 <= i < |ns| && ns[i].phase == NodePostCheck
  }

  /** The uncordon gate is pending only for a drained node, and stays pending when it is rejected. */
  ghost predicate GateOk(s: Status) {
    && (s.gate == Some(GateUncordon) ==> SomeDrained(s.nodes))
    && (s.ending == RejectedAtGate(GateUncordon) ==> s.gate == Some(GateUncordon))
  }

  lemma ValidatingGate(p: Pass, pol: PolicySpec, s: Status)
    requires s.gate == None && s.ending == Running
    ensures GateOk(Validating(p, pol, s).mem)
  {
  }

  lemma AwaitingGate(p: Pass, pol: PolicySpec, s: Status)
    requires GateOk(s) && s.gate.Some? && s.ending == Running
    ensures GateOk(AwaitingApproval(p, pol, s).mem)
  {
  }

  lemma AdvanceGate(p: Pass, pol: PolicySpec, s: Status)
    requires s.gate == None && s.ending == Running
    ensures GateOk(Advance(p, pol, s).mem)
  {
    CountBounds(s.nodes, {NodePostCheck});
  }

  lemma ExecutingGate(p: Pass, pol: PolicySpec, s: Status)
    requires s.gate == None && s.ending == Running
    ensures GateOk(Executing(p, pol, s).mem)
  {
    AdvanceGate(p, pol, s);
  }

  lemma RestGate(p: Pass, pol: PolicySpec, s: Status)
    requires GateOk(s) && s.ending == Running && s.phase in {PhasePlanned, PhasePaused, PhaseBlocked}
    requires s.phase != PhasePaused ==> s.gate == None
    ensures GateOk(Dispatch(p, pol, s).mem)
  {
  }

  lemma DispatchGate(p: Pass, pol: PolicySpec, s: Status)
    requires StatusOk(s) && GateOk(s) && !IsTerminal(s.phase) && s.phase != PhaseNone
    ensures GateOk(Dispatch(p, pol, s).mem)
  {
    match s.phase
    case PhasePending => ValidatingGate(p, pol, s);
    case PhaseValidating => ValidatingGate(p, pol, s);
    case PhaseAwaitingApproval => AwaitingGate(p, pol, s);
    case PhaseExecuting => ExecutingGate(p, pol, s);
    case _ => RestGate(p, pol, s);
  }

  lemma GateKept(p: Pass, s: Status)
    requires StatusOk(s) && GateOk(s)
    ensures GateOk(Reconcile(p, s).mem)
  {
    if Proceeds(p, s) {
      DispatchGate(p, PolicyOf(p), s);
    }
  }

  lemma {:induction false} GateAlwaysOk(ps: seq<Pass>)
    ensures GateOk(Run(ps).status)
  {
    if ps != [] {
      GateAlwaysOk(ps[..|ps| - 1]);
      StatusAlwaysOk(ps[..|ps| - 1]);
      GateKept(ps[|ps| - 1], Run(ps[..|ps| - 1]).status);
    }
  }

  // ----- requests that return their nodes -----

  lemma {:induction false} AbortedOrFree(ps: seq<Pass>)
    requires NoLostAbort(ps)
    ensures Run(ps).status.ending in {Aborted, CancelledByUser} || AbortFree(Run(ps).trace)
  {
    if ps != [] {
      var n := |ps| - 1;
      var w := Run(ps[..n]);
      AbortedOrFree(ps[..n]);
      StatusAlwaysOk(ps[..n]);
      if IsTerminal(w.status.phase) {
        Lifecycle.IdleNext(w, ps[n]);
      } else {
        PassAbortsLast(ps[n], w.status, w.trace);
        if Aborts(ps[n], w.status) {
          AbortEnds(ps[n], w.status);
        }
      }
    }
  }

  ghost predicate NeverReplaces(ps: seq<Pass>) {
    forall i | 0 <= i < |ps| :: !ps[i].spec.ReplaceNodes()
  }

  ghost predicate AlwaysReplaces(ps: seq<Pass>) {
    forall i | 0 <= i < |ps| :: ps[i].spec.ReplaceNodes()
  }

  ghost predicate AlwaysReturns(ps: seq<Pass>) {
    forall i | 0 <= i < |ps| :: Releases(ps[i].spec)
  }

  ghost predicate NoneGone(tr: seq<Event>) {
    forall e | e in tr :: !e.GoneSeen?
  }

  /** Without replacement no node is ever seen gone. */
  lemma {:induction false} NoneSeenGone(ps: seq<Pass>)
    requires NeverReplaces(ps)
    ensures NoReplacement(Run(ps).status.nodes) && NoneGone(Run(ps).trace)
  {
    if ps != [] {
      var n := |ps| - 1;
      var s := Run(ps[..n]).status;
      NoneSeenGone(ps[..n]);
      StatusAlwaysOk(ps[..n]);
      NextNoReplacement(ps[n], s);
      PassNodes(ps[n], s);
      CallsAreWrittenAhead(ps[n], s);
      NoneAnnouncedGone(Reconcile(ps[n], s).events, s.nodes);
    }
  }

  lemma NoneAnnouncedGone(es: seq<Event>, ns: seq<NodeRec>)
    requires NoReplacement(ns) && forall e | e in es :: Announced(e, ns)
    ensures NoneGone(es)
  {
  }

  /** A drained node that nobody has released is unschedulable. */
  lemma DrainedIsCordoned(ps: seq<Pass>, i: nat)
    requires DistinctTargets(ps) && AbortFree(Run(ps).trace) && NoneGone(Run(ps).trace)
    requires i < |Run(ps).status.nodes| && Run(ps).status.nodes[i].phase == NodePostCheck
    ensures Run(ps).status.nodes[i].node in Run(ps).cordoned
  {
    var r, tr := Run(ps).status.nodes[i], Run(ps).trace;
    Journal.RunAlwaysOk(ps);
    assert Journal.Earned(r, tr);
    TraceAlwaysOk(ps);
    CordonedByTrace(ps);
    KeptCordon(tr, r.node);
  }

  lemma {:induction false} RejectionLeavesSome(ps: seq<Pass>)
    requires DistinctTargets(ps) && NoLostAbort(ps) && NeverReplaces(ps)
    requires Run(ps).status.ending == RejectedAtGate(GateUncordon)
    ensures Run(ps).cordoned != {}
  {
    GateAlwaysOk(ps);
    AbortedOrFree(ps);
    NoneSeenGone(ps);
    var i :| 0 <= i < |Run(ps).status.nodes| && Run(ps).status.nodes[i].phase == NodePostCheck;
    DrainedIsCordoned(ps, i);
  }

  /** A request that returns its nodes, with distinct names, its abort uncordons answered and no abort lost, leaves no node
    * unschedulable when it ends if and only if it does not end by a rejection of the uncordon gate. */
  lemma {:induction false} StrandsIffRejected(ps: seq<Pass>)
    requires DistinctTargets(ps) && NoLostAbort(ps) && AlwaysReturns(ps)
    requires NoFailedRelease(Run(ps).trace) && IsTerminal(Run(ps).status.phase)
    ensures Run(ps).cordoned == {} <==> Run(ps).status.ending != RejectedAtGate(GateUncordon)
  {
    if Run(ps).status.ending == RejectedAtGate(GateUncordon) {
      RejectionLeavesSome(ps);
    } else {
      NoStrandedNodes(ps);
    }
  }

  // ----- requests that replace their nodes -----

  lemma DoneHoldsNone(ns: seq<NodeRec>, cordoned: set<string>)
    requires AllDone(ns) && Accounted(ns, cordoned)
    ensures cordoned == {}
  {
    NothingHeld(ns, cordoned);
  }

  /** A request that returns or replaces its nodes leaves none when it completes. */
  lemma CompletedLeavesNone(ps: seq<Pass>)
    requires forall i | 0 <= i < |ps| :: ps[i].spec.uncordonAfter || ps[i].spec.ReplaceNodes()
    requires Run(ps).status.phase == PhaseCompleted
    ensures Run(ps).cordoned == {}
  {
    UnschedulableIsAccounted(ps);
    StatusAlwaysOk(ps);
    DoneHoldsNone(Run(ps).status.nodes, Run(ps).cordoned);
  }

  /** Phases of a node that has been cordoned. */
  const PAST := {NodeDraining, NodePostCheck, NodeUncordoning, NodeReplacing, NodeAwaitingReplacement, NodeCompleted, NodeBlocked, NodeFailed}

  /** Phases of a node that may have been seen gone, before a retry. */
  const LEAVING := {NodeAwaitingReplacement, NodeCompleted, NodeBlocked}

  /** The pass takes no record out of the phases. */
  ghost predicate Stays(p: Pass, s: Status, phases: set<NodePhase>) {
    && |NodesAfter(p, s)| == |s.nodes|
    && forall i | 0 <= i < |s.nodes| && s.nodes[i].phase in phases :: NodesAfter(p, s)[i].phase in phases
  }

  lemma SteppedStays(c: StepContext, answers: seq<NodeAnswer>, b: int, r: NodeRec, r': NodeRec, i: nat)
    requires Stepped(c, answers, b, r, r', i)
    ensures r.phase in PAST ==> r'.phase in PAST
    ensures r.phase in LEAVING ==> r'.phase in LEAVING
  {
  }

  lemma RecordsStay(p: Pass, s: Status)
    requires StatusOk(s) && s.nodes != []
    ensures Stays(p, s, PAST) && (!Retries(p, s) ==> Stays(p, s, LEAVING))
  {
    Lifecycle.ShapeKept(p, s);
    if RunsBatch(p, s) {
      var c, b := ContextOf(p, PolicyOf(p)), CurrentBatch(s.nodes);
      SteppedOnce(c, p.answers, b, s.nodes, CountIn(s.nodes, IN_FLIGHT), |s.nodes|);
      forall i | 0 <= i < |s.nodes|
        ensures s.nodes[i].phase in PAST ==> NodesAfter(p, s)[i].phase in PAST
        ensures s.nodes[i].phase in LEAVING ==> NodesAfter(p, s)[i].phase in LEAVING
      {
        SteppedStays(c, p.answers, b, s.nodes[i], NodesAfter(p, s)[i], i);
      }
    }
  }

  ghost predicate HasRecord(ns: seq<NodeRec>, n: string, phases: set<NodePhase>) {
    exists i :: 0 <= i < |ns| && ns[i].node == n && ns[i].phase in phases
  }

  /** A node that was seen gone is no longer unschedulable, and its record is in one of the phases. */
  ghost predicate GoneOk(w: World, phases: set<NodePhase>) {
    forall n | GoneSeen(n) in w.trace :: n !in w.cordoned && HasRecord(w.status.nodes, n, phases)
  }

  lemma {:induction false} GoneEffects(cordoned: set<string>, es: seq<Event>, n: string)
    requires forall ok :: CordonCall(n, ok) !in es
    requires n !in cordoned || GoneSeen(n) in es
    ensures n !in Effects(cordoned, es)
  {
    if es != [] {
      var k := |es| - 1;
      assert forall e | e in es[..k] :: e in es;
      assert es[k] in es;
      if es[k] != GoneSeen(n) {
        GoneEffects(cordoned, es[..k], n);
      }
    }
  }

  /** A pass makes no cordon call on a node with a record in phases past the cordon. */
  lemma NoCordonOfPast(p: Pass, s: Status, n: string, phases: set<NodePhase>)
    requires StatusOk(s) && DistinctNodes(s.nodes) && HasRecord(s.nodes, n, phases) && NodeCordoning !in phases
    ensures forall ok :: CordonCall(n, ok) !in Reconcile(p, s).events
  {
    var i :| 0 <= i < |s.nodes| && s.nodes[i].node == n && s.nodes[i].phase in phases;
    CallsAreWrittenAhead(p, s);
    OnlyItsPhase(s.nodes, i, NodeCordoning);
  }

  lemma GoneInPass(p: Pass, s: Status, n: string)
    requires StatusOk(s) && GoneSeen(n) in Reconcile(p, s).events
    ensures HasRecord(s.nodes, n, {NodeAwaitingReplacement})
  {
    CallsAreWrittenAhead(p, s);
    assert InPhase(s.nodes, n, NodeAwaitingReplacement);
  }

  lemma RecordStays(p: Pass, s: Status, n: string, phases: set<NodePhase>)
    requires StatusOk(s) && HasRecord(s.nodes, n, phases) && Stays(p, s, phases)
    ensures HasRecord(NodesAfter(p, s), n, phases)
  {
    var i :| 0 <= i < |s.nodes| && s.nodes[i].node == n && s.nodes[i].phase in phases;
    Lifecycle.ShapeKept(p, s);
    assert NodesAfter(p, s)[i].node == n;
  }

  lemma NextGone(w: World, p: Pass, phases: set<NodePhase>)
    requires StatusOk(w.status) && DistinctNodes(w.status.nodes) && GoneOk(w, phases)
    requires NodeAwaitingReplacement in phases && NodeCordoning !in phases
    requires w.status.nodes != [] ==> Stays(p, w.status, phases)
    ensures GoneOk(Next(w, p), phases)
  {
    var s, es := w.status, Reconcile(p, w.status).events;
    PassNodes(p, s);
    forall n | GoneSeen(n) in w.trace + es
      ensures n !in Effects(w.cordoned, es) && HasRecord(Next(w, p).status.nodes, n, phases)
    {
      if GoneSeen(n) in es {
        GoneInPass(p, s, n);
      }
      assert HasRecord(s.nodes, n, phases);
      NoCordonOfPast(p, s, n, phases);
      GoneEffects(w.cordoned, es, n);
      RecordStays(p, s, n, phases);
    }
  }

  lemma NextGonePast(w: World, p: Pass)
    requires TraceOk(w) && GoneOk(w, PAST)
    ensures GoneOk(Next(w, p), PAST)
  {
    if w.status.nodes != [] {
      RecordsStay(p, w.status);
    }
    NextGone(w, p, PAST);
  }

  lemma NextGoneLeaving(w: World, p: Pass)
    requires TraceOk(w) && GoneOk(w, LEAVING) && !Retries(p, w.status)
    ensures GoneOk(Next(w, p), LEAVING)
  {
    if w.status.nodes != [] {
      RecordsStay(p, w.status);
    }
    NextGone(w, p, LEAVING);
  }

  lemma {:induction false} GonePast(ps: seq<Pass>)
    requires DistinctTargets(ps)
    ensures GoneOk(Run(ps), PAST)
  {
    if ps != [] {
      var n := |ps| - 1;
      GonePast(ps[..n]);
      TraceAlwaysOk(ps[..n]);
      NextGonePast(Run(ps[..n]), ps[n]);
    }
  }

  lemma {:induction false} GoneLeaving(ps: seq<Pass>)
    requires DistinctTargets(ps) && Caps.RetryFree(ps)
    ensures GoneOk(Run(ps), LEAVING)
  {
    if ps != [] {
      var n := |ps| - 1;
      GoneLeaving(ps[..n]);
      TraceAlwaysOk(ps[..n]);
      NextGoneLeaving(Run(ps[..n]), ps[n]);
    }
  }

  ghost predicate NoUncordons(tr: seq<Event>) {
    forall e | e in tr :: !e.UncordonCall?
  }

  /** A request that replaces its nodes has no record on the way back to service, and uncordons none. */
  lemma {:induction false} ReplacementNeverUncordons(ps: seq<Pass>)
    requires AlwaysReplaces(ps)
    ensures NoUncordons(Run(ps).trace)
    ensures forall i | 0 <= i < |Run(ps).status.nodes| :: Run(ps).status.nodes[i].phase != NodeUncordoning
  {
    if ps != [] {
      var n := |ps| - 1;
      var s := Run(ps[..n]).status;
      ReplacementNeverUncordons(ps[..n]);
      StatusAlwaysOk(ps[..n]);
      PassNodes(ps[n], s);
      NoneUncordoning(ps[n], s);
      CallsAreWrittenAhead(ps[n], s);
      Gates.PassEvents(ps[n], s);
      NoneAnnouncedReturned(Reconcile(ps[n], s).events, s.nodes);
    }
  }

  lemma NoneAnnouncedReturned(es: seq<Event>, ns: seq<NodeRec>)
    requires forall i | 0 <= i < |ns| :: ns[i].phase != NodeUncordoning
    requires forall e | e in es :: Announced(e, ns) && !(e.UncordonCall? && e.abort)
    ensures NoUncordons(es)
  {
  }

  lemma NoneUncordoning(p: Pass, s: Status)
    requires StatusOk(s) && p.spec.ReplaceNodes() && forall i | 0 <= i < |s.nodes| :: s.nodes[i].phase != NodeUncordoning
    ensures forall i | 0 <= i < |NodesAfter(p, s)| :: NodesAfter(p, s)[i].phase != NodeUncordoning
  {
    if RunsBatch(p, s) {
      var c, b := ContextOf(p, PolicyOf(p)), CurrentBatch(s.nodes);
      SteppedOnce(c, p.answers, b, s.nodes, CountIn(s.nodes, IN_FLIGHT), |s.nodes|);
      forall i | 0 <= i < |s.nodes| ensures NodesAfter(p, s)[i].phase != NodeUncordoning {
        NotTurned(c, p.answers, b, s.nodes[i], NodesAfter(p, s)[i], i);
      }
    } else if Starts(p, s) && s.nodes == [] {
      PlanRecords(p, PolicyOf(p), p.target.value);
    }
  }

  lemma NotTurned(c: StepContext, answers: seq<NodeAnswer>, b: int, r: NodeRec, r': NodeRec, i: nat)
    requires Stepped(c, answers, b, r, r', i) && c.spec.ReplaceNodes() && r.phase != NodeUncordoning
    ensures r'.phase != NodeUncordoning
  {
  }

  /** What the trace and the record of a node say together. */
  lemma PastIffNotGone(w: World, r: NodeRec)
    requires GoneOk(w, PAST) && NoUncordons(w.trace) && Journal.Earned(r, w.trace) && r.phase in PAST
    requires w.cordoned == Effects({}, w.trace)
    ensures r.node in w.cordoned <==> GoneSeen(r.node) !in w.trace
  {
    if GoneSeen(r.node) !in w.trace {
      KeptCordon(w.trace, r.node);
    }
  }

  /** On every run of a request that replaces its nodes, over distinct names: a node whose record is past the cordon is
    * unschedulable if and only if it has not been seen gone, however the request ends. */
  lemma ReplacementStrandsIff(ps: seq<Pass>, i: nat)
    requires DistinctTargets(ps) && AlwaysReplaces(ps)
    requires i < |Run(ps).status.nodes| && Run(ps).status.nodes[i].phase in PAST
    ensures Run(ps).status.nodes[i].node in Run(ps).cordoned <==> GoneSeen(Run(ps).status.nodes[i].node) !in Run(ps).trace
  {
    GonePast(ps);
    ReplacementNeverUncordons(ps);
    Journal.RunAlwaysOk(ps);
    CordonedByTrace(ps);
    PastIffNotGone(Run(ps), Run(ps).status.nodes[i]);
  }

  lemma NotLeavingNotGone(w: World, i: nat)
    requires TraceOk(w) && GoneOk(w, LEAVING) && i < |w.status.nodes| && w.status.nodes[i].phase !in LEAVING
    ensures GoneSeen(w.status.nodes[i].node) !in w.trace
  {
    OneRecord(w.status.nodes, i, LEAVING);
  }

  /** Phases in which a node of a request that replaces has not gone, before a retry. */
  predicate Staying(phase: NodePhase) {
    phase in {NodeDraining, NodePostCheck, NodeReplacing, NodeFailed}
  }

  lemma StayingPhases(phase: NodePhase)
    requires Staying(phase)
    ensures phase in PAST && phase !in LEAVING
  {
  }

  /** So without a retry a node whose record is draining, drained, being replaced or failed is unschedulable. */
  lemma {:induction false} UnreplacedIsCordoned(ps: seq<Pass>, i: nat)
    requires DistinctTargets(ps) && Caps.RetryFree(ps) && AlwaysReplaces(ps)
    requires i < |Run(ps).status.nodes| && Staying(Run(ps).status.nodes[i].phase)
    ensures Run(ps).status.nodes[i].node in Run(ps).cordoned
  {
    StayingPhases(Run(ps).status.nodes[i].phase);
    GoneLeaving(ps);
    TraceAlwaysOk(ps);
    NotLeavingNotGone(Run(ps), i);
    ReplacementStrandsIff(ps, i);
  }

  lemma OneRecord(ns: seq<NodeRec>, i: nat, phases: set<NodePhase>)
    requires DistinctNodes(ns) && i < |ns| && ns[i].phase !in phases
    ensures !HasRecord(ns, ns[i].node, phases)
  {
  }
}
