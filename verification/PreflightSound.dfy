/** The static unavailability check bounds what the run really does. */
module PreflightSound {
  import opened Api
  import opened NodeMachine
  import opened Passes
  import opened Invariant
  import opened PassFacts
  import opened StateMachine
  import opened Cordons
  import opened Caps
  import Planner
  import Policy
  import Preflight

  /** The cluster before the request acts: which nodes are unschedulable, and the target every pass resolves. */
  ghost predicate Sees(t: Target, unschedulable: set<string>) {
    && (forall i | 0 <= i < |t.nodes| :: t.nodes[i].unschedulable <==> t.nodes[i].name in unschedulable)
    && (forall i | 0 <= i < |t.universe| :: t.universe[i].unschedulable <==> t.universe[i].name in unschedulable)
  }

  /** The terms of the request and the policy do not change, and no other actor changes the target. */
  ghost predicate Fixed(ps: seq<Pass>, raw: PolicySpec, maxConcurrent: int, uncordonAfter: bool, t: Target) {
    forall i | 0 <= i < |ps| ::
      && (ps[i].policy.Some? ==> ps[i].policy == Some(raw))
      && ps[i].spec.maxConcurrent == maxConcurrent && ps[i].spec.uncordonAfter == uncordonAfter
      && (ps[i].target.Some? ==> ps[i].target == Some(t))
  }

  ghost function NamesOf(ns: seq<NodeRec>): set<string> {
    set i | 0 <= i < |ns| :: ns[i].node
  }

  ghost function TargetNames(ts: seq<TargetNode>): set<string> {
    set i | 0 <= i < |ts| :: ts[i].name
  }

  /** The scope's nodes that may be unschedulable at a moment of the run. */
  ghost function Unavailable(t: Target, unschedulable: set<string>, cordoned: set<string>): set<string> {
    (unschedulable + cordoned) * TargetNames(Preflight.Scope(t))
  }

  // ----- counting -----

  lemma {:induction false} CordonedNamesBound(ts: seq<TargetNode>, unschedulable: set<string>)
    requires forall i | 0 <= i < |ts| :: ts[i].unschedulable <==> ts[i].name in unschedulable
    ensures |unschedulable * TargetNames(ts)| <= Preflight.CountCordoned(ts)
  {
    var names := unschedulable * TargetNames(ts);
    if ts == [] {
      assert names == {};
    } else {
      var n := |ts| - 1;
      CordonedNamesBound(ts[..n], unschedulable);
      var before := unschedulable * TargetNames(ts[..n]);
      assert names <= before + (if ts[n].unschedulable then {ts[n].name} else {});
      SubsetSize(names, before + (if ts[n].unschedulable then {ts[n].name} else {}));
    }
  }

  lemma {:induction false} FreeNamesBound(ts: seq<TargetNode>, unschedulable: set<string>)
    requires forall i | 0 <= i < |ts| :: ts[i].unschedulable <==> ts[i].name in unschedulable
    ensures |TargetNames(ts) - unschedulable| <= |ts| - Preflight.CountCordoned(ts)
  {
    var names := TargetNames(ts) - unschedulable;
    if ts == [] {
      assert names == {};
    } else {
      var n := |ts| - 1;
      FreeNamesBound(ts[..n], unschedulable);
      var before := TargetNames(ts[..n]) - unschedulable;
      assert names <= before + (if ts[n].unschedulable then {} else {ts[n].name});
      SubsetSize(names, before + (if ts[n].unschedulable then {} else {ts[n].name}));
    }
  }

  lemma SubsetSize(a: set<string>, b: set<string>)
    requires a <= b
    ensures |a| <= |b|
  {
    if a != b {
      assert a + (b - a) == b;
    }
  }

  lemma {:induction false} HeldNamesBound(ns: seq<NodeRec>, names: set<string>)
    requires forall n | n in names :: Held(ns, n)
    ensures |names| <= CountIn(ns, HOLDERS)
  {
    if ns == [] {
      NothingHeld(ns, names);
    } else {
      var m := |ns| - 1;
      var rest := if ns[m].phase in HOLDERS then names - {ns[m].node} else names;
      forall n | n in rest ensures Held(ns[..m], n) {
        var i :| 0 <= i < |ns| && ns[i].node == n && ns[i].phase in HOLDERS;
        assert ns[..m][i] == ns[i];
      }
      HeldNamesBound(ns[..m], rest);
      if ns[m].phase in HOLDERS {
        SubsetSize(names, rest + {ns[m].node});
      }
    }
  }

  // ----- the run stays inside the target -----

  ghost predicate InTarget(w: World, t: Target) {
    && (w.status.nodes != [] ==> NamesOf(w.status.nodes) <= TargetNames(t.nodes))
    && w.cordoned <= TargetNames(t.nodes)
  }

  lemma StartNames(p: Pass, pol: PolicySpec, t: Target)
    ensures NamesOf(InitNodes(PlanFor(p, pol, t).batches)) <= TargetNames(t.nodes)
  {
    var ns := InitNodes(PlanFor(p, pol, t).batches);
    PlanRecords(p, pol, t);
    forall i | 0 <= i < |ns| ensures ns[i].node in TargetNames(t.nodes) {
      assert ns[i].node == NodeNames(ns)[i];
      assert NodeNames(ns)[i] in multiset(NodeNames(ns));
      assert ns[i].node in multiset(Planner.Names(t.nodes));
      assert ns[i].node in Planner.Names(t.nodes);
    }
  }

  lemma SameShapeNames(a: seq<NodeRec>, b: seq<NodeRec>)
    requires SameShape(a, b)
    ensures NamesOf(a) == NamesOf(b)
  {
    assert forall i | 0 <= i < |a| :: a[i].node == b[i].node;
  }

  lemma NodesAfterNames(p: Pass, s: Status, t: Target)
    requires StatusOk(s) && (s.nodes != [] ==> NamesOf(s.nodes) <= TargetNames(t.nodes))
    requires p.target.Some? ==> p.target == Some(t)
    ensures NodesAfter(p, s) != [] ==> NamesOf(NodesAfter(p, s)) <= TargetNames(t.nodes)
  {
    if RunsBatch(p, s) {
      BatchKeepsNodes(p, PolicyOf(p), s);
      SameShapeNames(NodesAfter(p, s), s.nodes);
    } else if Starts(p, s) && s.nodes == [] {
      StartNames(p, PolicyOf(p), t);
    } else if Retries(p, s) {
      SameShapeNames(NodesAfter(p, s), s.nodes);
    }
  }

  lemma NextInTarget(w: World, p: Pass, t: Target)
    requires StatusOk(w.status) && InTarget(w, t)
    requires p.target.Some? ==> p.target == Some(t)
    ensures InTarget(Next(w, p), t)
  {
    var s := w.status;
    var es := Reconcile(p, s).events;
    PassNodes(p, s);
    NodesAfterNames(p, s, t);
    CallsAreWrittenAhead(p, s);
    forall n | n in Effects(w.cordoned, es) ensures n in TargetNames(t.nodes) {
      EffectsFrom(w.cordoned, es, n);
      if n !in w.cordoned {
        assert InPhase(s.nodes, n, NodeCordoning);
        var i :| 0 <= i < |s.nodes| && s.nodes[i].node == n && s.nodes[i].phase == NodeCordoning;
        assert n in NamesOf(s.nodes);
      }
    }
  }

  // ----- the check was passed -----

  /** A plan exists only after the check passed. */
  ghost predicate Checked(s: Status, pol: PolicySpec, spec: RequestSpec, t: Target) {
    s.plan.Some? ==> !Preflight.TooManyUnavailable(pol, spec, t)
  }

  lemma PlanNeedsCheck(p: Pass, s: Status)
    ensures s.plan.None? && Reconcile(p, s).mem.plan.Some? && s.phase != PhasePlanned ==>
              p.policy.Some? && p.target.Some? && !Preflight.TooManyUnavailable(PolicyOf(p), p.spec, p.target.value)
  {
    if Proceeds(p, s) {
      if s.phase in {PhasePending, PhaseValidating} {
        ValidatingChecks(p, PolicyOf(p), s);
      } else if s.phase == PhaseExecuting {
        ExecutingKeepsPlan(p, PolicyOf(p), s);
      }
    }
  }

  lemma ValidatingChecks(p: Pass, pol: PolicySpec, s: Status)
    ensures s.plan.None? && Validating(p, pol, s).mem.plan.Some? ==>
              p.target.Some? && !Preflight.TooManyUnavailable(pol, p.spec, p.target.value)
  {
  }

  lemma ExecutingKeepsPlan(p: Pass, pol: PolicySpec, s: Status)
    ensures Executing(p, pol, s).mem.plan == s.plan
  {
  }

  /** The check reads only the terms that are fixed. */
  lemma CheckDependsOnTerms(pol: PolicySpec, a: RequestSpec, b: RequestSpec, t: Target)
    requires a.maxConcurrent == b.maxConcurrent && a.uncordonAfter == b.uncordonAfter
    ensures Preflight.TooManyUnavailable(pol, a, t) == Preflight.TooManyUnavailable(pol, b, t)
  {
  }

  lemma {:induction false} RunInTarget(ps: seq<Pass>, raw: PolicySpec, spec: RequestSpec, t: Target)
    requires Fixed(ps, raw, spec.maxConcurrent, spec.uncordonAfter, t)
    ensures InTarget(Run(ps), t) && Checked(Run(ps).status, Policy.WithDefaults(raw), spec, t)
  {
    if ps != [] {
      var n := |ps| - 1;
      var w := Run(ps[..n]);
      RunInTarget(ps[..n], raw, spec, t);
      StatusAlwaysOk(ps[..n]);
      NextInTarget(w, ps[n], t);
      PlanNeedsCheck(ps[n], w.status);
      if ps[n].policy.Some? && ps[n].target.Some? {
        CheckDependsOnTerms(Policy.WithDefaults(raw), ps[n].spec, spec, t);
      }
    }
  }

  // ----- the bounds -----

  lemma UnavailableSplit(t: Target, unschedulable: set<string>, cordoned: set<string>)
    requires Sees(t, unschedulable) && cordoned <= TargetNames(t.nodes)
    ensures |Unavailable(t, unschedulable, cordoned)| <= Preflight.CountCordoned(Preflight.Scope(t)) + |cordoned|
    ensures |Unavailable(t, unschedulable, cordoned)|
         <= Preflight.CountCordoned(Preflight.Scope(t)) + |t.nodes| - Preflight.CountCordoned(t.nodes)
  {
    var scope := Preflight.Scope(t);
    var old' := unschedulable * TargetNames(scope);
    var u := Unavailable(t, unschedulable, cordoned);
    CordonedNamesBound(scope, unschedulable);
    FreeNamesBound(t.nodes, unschedulable);
    var fresh' := cordoned - unschedulable;
    SubsetSize(u, old' + fresh');
    SubsetSize(fresh', cordoned);
    SubsetSize(fresh', TargetNames(t.nodes) - unschedulable);
  }

  /** While a request returns or replaces its nodes, the scope's unschedulable nodes never outnumber those that
    * were so before plus its nodes in flight, blocked or failed - on every run, retries and lost writes included. */
  lemma UnavailabilityBound(ps: seq<Pass>, raw: PolicySpec, spec: RequestSpec, t: Target, unschedulable: set<string>)
    requires Fixed(ps, raw, spec.maxConcurrent, spec.uncordonAfter, t) && Sees(t, unschedulable)
    requires forall i | 0 <= i < |ps| :: ps[i].spec.uncordonAfter || ps[i].spec.ReplaceNodes()
    ensures |Unavailable(t, unschedulable, Run(ps).cordoned)|
         <= Preflight.CountCordoned(Preflight.Scope(t)) + CountIn(Run(ps).status.nodes, HOLDERS)
  {
    var w := Run(ps);
    RunInTarget(ps, raw, spec, t);
    UnschedulableIsAccounted(ps);
    HeldNamesBound(w.status.nodes, w.cordoned);
    UnavailableSplit(t, unschedulable, w.cordoned);
  }

  /** The limit the policy sets for this scope. */
  function Limit(raw: PolicySpec, t: Target): int {
    Policy.MaxUnavailable(Policy.WithDefaults(raw), |Preflight.Scope(t)|)
  }

  /** A request has cordoned nothing before it has records, and so a checked plan. */
  lemma {:induction false} CordonsNeedRecords(ps: seq<Pass>)
    ensures Run(ps).cordoned != {} ==> Run(ps).status.nodes != []
  {
    if ps != [] {
      var n := |ps| - 1;
      var w := Run(ps[..n]);
      CordonsNeedRecords(ps[..n]);
      StatusAlwaysOk(ps[..n]);
      PassNodes(ps[n], w.status);
      if w.status.nodes == [] {
        NoCordonWithoutRecords(ps[n], w.status, w.cordoned);
      } else {
        PendingOnlyFades(ps[n], w.status, 0);
      }
    }
  }

  lemma {:induction false} NoCordonWithoutRecords(p: Pass, s: Status, cordoned: set<string>)
    requires IsTerminal(s.phase) || s.ending.Running?
    requires s.nodes == [] && cordoned == {}
    ensures Effects(cordoned, Reconcile(p, s).events) == {}
  {
    LostWriteAccounts(p, s, cordoned);
    NothingHeld(s.nodes, Effects(cordoned, Reconcile(p, s).events));
  }

  /** Preflight is sound for requests that do not uncordon: once such a request has a plan, and in particular once it
    * has cordoned anything, no run of it ever takes the scope over the limit the check measured against,
    * whatever happens to its nodes. */
  lemma PreflightSoundWithoutUncordon(ps: seq<Pass>, raw: PolicySpec, spec: RequestSpec, t: Target, unschedulable: set<string>)
    requires Fixed(ps, raw, spec.maxConcurrent, false, t) && Sees(t, unschedulable) && !spec.uncordonAfter
    requires Policy.UnavailabilityCapped(Policy.WithDefaults(raw))
    requires Run(ps).status.plan.Some? || Run(ps).cordoned != {}
    ensures |Unavailable(t, unschedulable, Run(ps).cordoned)| <= Limit(raw, t)
  {
    RunInTarget(ps, raw, spec, t);
    StatusAlwaysOk(ps);
    CordonsNeedRecords(ps);
    UnavailableSplit(t, unschedulable, Run(ps).cordoned);
  }

  /** Preflight is sound for requests that uncordon: at any moment of a run without a retry at which no node is
    * blocked or failed, the scope is within the limit the check measured against. */
  lemma {:induction false} PreflightSoundWithUncordon(ps: seq<Pass>, raw: PolicySpec, spec: RequestSpec, t: Target, unschedulable: set<string>)
    requires Fixed(ps, raw, spec.maxConcurrent, true, t) && Sees(t, unschedulable) && spec.uncordonAfter
    requires Policy.UnavailabilityCapped(Policy.WithDefaults(raw))
    requires RetryFree(ps) && CountIn(Run(ps).status.nodes, {NodeBlocked, NodeFailed}) == 0
    requires Run(ps).status.plan.Some? || Run(ps).cordoned != {}
    ensures |Unavailable(t, unschedulable, Run(ps).cordoned)| <= Limit(raw, t)
  {
    var pol := Policy.WithDefaults(raw);
    RunInTarget(ps, raw, spec, t);
    StatusAlwaysOk(ps);
    CordonsNeedRecords(ps);
    HoldersWithinConcurrency(ps, Policy.Concurrency(pol, spec.maxConcurrent));
    UnavailabilityBound(ps, raw, spec, t, unschedulable);
    UnavailableSplit(t, unschedulable, Run(ps).cordoned);
  }

  lemma {:induction false} HoldersAre(ns: seq<NodeRec>)
    requires CountIn(ns, {NodeBlocked, NodeFailed}) == 0
    ensures CountIn(ns, HOLDERS) == CountIn(ns, IN_FLIGHT)
  {
    CountUnion(ns, IN_FLIGHT, {NodeBlocked, NodeFailed});
  }

  lemma {:induction false} HoldersWithinConcurrency(ps: seq<Pass>, c: nat)
    requires RetryFree(ps) && AtMost(ps, c)
    requires CountIn(Run(ps).status.nodes, {NodeBlocked, NodeFailed}) == 0
    ensures CountIn(Run(ps).status.nodes, HOLDERS) <= c
  {
    OwnConcurrency(ps, c);
    HoldersAre(Run(ps).status.nodes);
  }
}
