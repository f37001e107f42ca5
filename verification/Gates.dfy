/** What approvals and modes keep a request from doing. */
module Gates {
  import opened Api
  import opened NodeMachine
  import opened Passes
  import opened Invariant
  import opened PassFacts
  import opened StateMachine
  import opened Journal
  import opened Cordons
  import Lifecycle

  // ----- what a pass says and touches -----

  lemma {:induction false} LoopEvents(c: StepContext, answers: seq<NodeAnswer>, b: int, ns: seq<NodeRec>, fl: int, k: nat)
    requires k <= |ns|
    ensures forall e | e in StepTo(c, answers, b, ns, fl, k).events :: !e.Judged? && !(e.UncordonCall? && e.abort)
  {
    if k > 0 {
      LoopEvents(c, answers, b, ns, fl, k - 1);
      StepEvents(c, AnswerAt(answers, k - 1), ns[k - 1], StepTo(c, answers, b, ns, fl, k - 1).inFlight);
    }
  }

  lemma StepEvents(c: StepContext, a: NodeAnswer, r: NodeRec, fl: int)
    ensures forall e | e in Step(c, a, r, fl).events :: !e.Judged? && !(e.UncordonCall? && e.abort)
  {
  }

  lemma BatchEvents(p: Pass, s: Status)
    ensures forall e | e in BatchCalls(p, s) :: !e.Judged? && !(e.UncordonCall? && e.abort)
  {
    if RunsBatch(p, s) {
      LoopEvents(ContextOf(p, PolicyOf(p)), p.answers, CurrentBatch(s.nodes), s.nodes, CountIn(s.nodes, IN_FLIGHT), |s.nodes|);
    }
  }

  lemma JudgementIsVerdict(p: Pass, s: Status)
    ensures forall e | e in Judgement(p, s) :: e.Judged? && p.policy.Some? && e.verdict == VerdictAt(p, PolicyOf(p), e.gate)
  {
  }

  /** Every judgement a pass makes is the verdict on the spec and policy it read; nodes are touched only in the
    * visit of a batch, or to release them when the pass fails the request or obeys a user's cancel. */
  lemma PassEvents(p: Pass, s: Status)
    requires IsTerminal(s.phase) || s.ending.Running?
    ensures forall e | e in Reconcile(p, s).events && e.Judged? ::
              p.policy.Some? && e.verdict == VerdictAt(p, PolicyOf(p), e.gate)
    ensures forall e | e in Reconcile(p, s).events && e.UncordonCall? && e.abort :: Aborts(p, s) && Releases(p.spec)
    ensures forall e | e in Reconcile(p, s).events && e.TouchesNode() && !(e.UncordonCall? && e.abort) :: RunsBatch(p, s)
  {
    PassCalls(p, s);
    BatchEvents(p, s);
    JudgementIsVerdict(p, s);
    ReleaseIsAbort(p, NodesAfter(p, s), |NodesAfter(p, s)|);
  }

  // ----- the uncordon gate -----

  /** Every pass that knows its policy finds the uncordon gate required. */
  ghost predicate AlwaysGated(ps: seq<Pass>) {
    forall i | 0 <= i < |ps| && ps[i].policy.Some? ::
      var own, fallback := ps[i].spec.approval, ps[i].policy.value.defaultApproval;
      (if own == ApprovalUnset then fallback else own) in {ApprovalManualBeforeUncordon, ApprovalManualBeforeBoth}
  }

  lemma PassNeverJudges(p: Pass, s: Status, gate: Gate, v: Verdict)
    requires IsTerminal(s.phase) || s.ending.Running?
    requires p.policy.Some? ==> VerdictAt(p, PolicyOf(p), gate) != v
    ensures Judged(gate, v) !in Reconcile(p, s).events
  {
    PassEvents(p, s);
  }

  /** A verdict no pass would reach is never noted. */
  lemma {:induction false} NeverJudged(ps: seq<Pass>, gate: Gate, v: Verdict)
    requires forall i | 0 <= i < |ps| && ps[i].policy.Some? :: VerdictAt(ps[i], PolicyOf(ps[i]), gate) != v
    ensures Judged(gate, v) !in Run(ps).trace
  {
    if ps != [] {
      var n := |ps| - 1;
      NeverJudged(ps[..n], gate, v);
      StatusAlwaysOk(ps[..n]);
      PassNeverJudges(ps[n], Run(ps[..n]).status, gate, v);
    }
  }

  /** Where the uncordon gate is always required, every uncordon of a step comes after an evaluation that found
    * the gate approved. */
  lemma UncordonNeedsApproval(ps: seq<Pass>, k: nat)
    requires AlwaysGated(ps)
    requires k < |Run(ps).trace| && Run(ps).trace[k].UncordonCall? && !Run(ps).trace[k].abort
    ensures Judged(GateUncordon, Approved) in Run(ps).trace[..k]
  {
    var tr := Run(ps).trace;
    EveryCallJustified(ps);
    NeverJudged(ps, GateUncordon, NotRequired);
    assert Justified(tr[k], tr[..k]);
  }

  // ----- a rejected gate -----

  /** Once a pass awaiting approval sees a rejection and its status is stored, nothing follows: that pass touches no
    * node, and no later pass makes any call at all. */
  lemma {:induction false} RejectionEnds(w: World, p: Pass, ps: seq<Pass>)
    requires w.status.phase == PhaseAwaitingApproval && Proceeds(p, w.status) && p.writeOk
    requires VerdictAt(p, PolicyOf(p), PendingGate(w.status)) == Rejected
    ensures var w' := Next(w, p);
            && w'.trace == w.trace + [Judged(PendingGate(w.status), Rejected)]
            && w'.cordoned == w.cordoned
            && w'.status.phase == PhaseCancelled && w'.status.ending == RejectedAtGate(PendingGate(w.status))
            && RunFrom(w', ps) == w'
  {
    var s := w.status;
    var o := Reconcile(p, s);
    assert o == Settle(p, s, PendingGate(s), Rejected);
    assert o.events == [Judged(PendingGate(s), Rejected)];
    UncordonsOnlyShrink(w.cordoned, o.events);
    JudgedHasNoEffect(w.cordoned, PendingGate(s), Rejected);
    Lifecycle.FinishedForGood(Next(w, p), ps);
  }

  lemma {:induction false} JudgedHasNoEffect(cordoned: set<string>, gate: Gate, v: Verdict)
    ensures Effects(cordoned, [Judged(gate, v)]) == cordoned
  {
    EffectsOne(cordoned, Judged(gate, v));
  }

  /** The request is waiting at the gate, perhaps paused, or was cancelled there. */
  ghost predicate AtGate(s: Status, gate: Gate) {
    || (s.phase in {PhaseAwaitingApproval, PhasePaused} && s.gate == Some(gate))
    || (s.phase == PhaseCancelled && s.ending == RejectedAtGate(gate))
  }

  /** The pass still finds the gate rejected, and neither a cancel nor an unknown policy ends the request. */
  ghost predicate StillRejects(p: Pass, gate: Gate) {
    !p.spec.cancel && p.policy.Some? && VerdictAt(p, PolicyOf(p), gate) == Rejected
  }

  lemma RejectedPass(p: Pass, s: Status, gate: Gate)
    requires AtGate(s, gate) && StillRejects(p, gate)
    ensures AtGate(Reconcile(p, s).mem, gate)
    ensures Reconcile(p, s).events in {[], [Judged(gate, Rejected)]}
  {
    if Proceeds(p, s) && s.phase == PhaseAwaitingApproval {
      var o := Settle(p, s, gate, Rejected);
      assert Reconcile(p, s) == o;
      assert o.events == [Judged(gate, Rejected)];
    }
  }

  /** Since the world before, the request has stayed at the gate and made no call but to note the rejection. */
  ghost predicate StoodSince(before: World, w: World, gate: Gate) {
    && AtGate(w.status, gate) && w.cordoned == before.cordoned
    && before.trace <= w.trace
    && forall k | |before.trace| <= k < |w.trace| :: w.trace[k] == Judged(gate, Rejected)
  }

  lemma NextStands(before: World, w: World, gate: Gate, p: Pass)
    requires StoodSince(before, w, gate) && StillRejects(p, gate)
    ensures StoodSince(before, Next(w, p), gate)
  {
    RejectedPass(p, w.status, gate);
    JudgedHasNoEffect(w.cordoned, gate, Rejected);
  }

  /** While the rejection stands, no node is ever touched again - also when the writes of the cancellation are
    * lost, or the request is paused and resumed. */
  lemma {:induction false} RejectionStands(w: World, gate: Gate, ps: seq<Pass>)
    requires AtGate(w.status, gate)
    requires forall i | 0 <= i < |ps| :: StillRejects(ps[i], gate)
    ensures StoodSince(w, RunFrom(w, ps), gate)
  {
    if ps != [] {
      var n := |ps| - 1;
      RejectionStands(w, gate, ps[..n]);
      NextStands(w, RunFrom(w, ps[..n]), gate, ps[n]);
    }
  }

  // ----- modes -----

  /** The request has no records, so there is nothing it could touch. */
  ghost predicate Untouched(w: World) {
    && StatusOk(w.status) && w.status.nodes == [] && w.cordoned == {}
    && forall e | e in w.trace :: e.Judged?
  }

  lemma {:induction false} NothingToRelease(p: Pass, ns: seq<NodeRec>)
    requires ns == []
    ensures ReleaseTo(p, ns, |ns|) == []
  {
  }

  lemma {:induction false} RecordlessPass(p: Pass, s: Status, cordoned: set<string>)
    requires StatusOk(s) && s.nodes == [] && !Starts(p, s)
    ensures Reconcile(p, s).mem.nodes == [] && Reconcile(p, s).events == Judgement(p, s)
    ensures Effects(cordoned, Reconcile(p, s).events) == cordoned
  {
    PassNodes(p, s);
    PassCalls(p, s);
    JudgementHasNoEffect(p, s, cordoned);
  }

  lemma UntouchedNext(w: World, p: Pass)
    requires Untouched(w) && !Starts(p, w.status)
    ensures Untouched(Next(w, p))
  {
    RecordlessPass(p, w.status, w.cordoned);
    PassKeepsStatus(p, w.status);
    JudgementIsVerdict(p, w.status);
  }

  /** No pass of the run puts the request into execution. */
  predicate NeverStarts(ps: seq<Pass>) {
    ps == [] || (NeverStarts(ps[..|ps| - 1]) && !Starts(ps[|ps| - 1], Run(ps[..|ps| - 1]).status))
  }

  /** Only a start makes a difference to the cluster: without one there are no records, no execution and no calls. */
  lemma {:induction false} OnlyStartsMutate(ps: seq<Pass>)
    requires NeverStarts(ps)
    ensures Untouched(Run(ps)) && Run(ps).status.phase != PhaseExecuting
  {
    if ps != [] {
      OnlyStartsMutate(ps[..|ps| - 1]);
      UntouchedNext(Run(ps[..|ps| - 1]), ps[|ps| - 1]);
    }
  }

  /** Conversely, a start does make one: it leaves records, and the request executes. */
  lemma StartsMutate(w: World, p: Pass)
    requires StatusOk(w.status) && Starts(p, w.status) && p.writeOk
    ensures Next(w, p).status.phase == PhaseExecuting && |Next(w, p).status.nodes| == |p.target.value.nodes| > 0
  {
    var s := w.status;
    Lifecycle.StartCoversTarget(p, s);
    PlanRecords(p, PolicyOf(p), p.target.value);
    StartIsBegin(p, PolicyOf(p), s, PlanFor(p, PolicyOf(p), p.target.value));
    PassNodes(p, s);
  }

  ghost predicate AllInMode(ps: seq<Pass>, mode: Mode) {
    forall i | 0 <= i < |ps| :: ps[i].spec.mode == mode
  }

  /** An advisory request never mutates anything: no record, no execution, and nothing but gate evaluations. */
  lemma {:induction false} AdvisoryNeverMutates(ps: seq<Pass>)
    requires AllInMode(ps, ModeAdvisory)
    ensures NeverStarts(ps)
    ensures Untouched(Run(ps)) && Run(ps).status.phase != PhaseExecuting
  {
    if ps != [] {
      AdvisoryNeverMutates(ps[..|ps| - 1]);
    }
    OnlyStartsMutate(ps);
  }

  /** Where a dry run can be. */
  ghost predicate DryRunOk(s: Status) {
    && s.nodes == [] && s.gate.None? && (s.plan.None? || IsTerminal(s.phase))
    && s.phase !in {PhasePlanned, PhaseExecuting, PhaseAwaitingApproval}
  }

  lemma DryRunValidating(p: Pass, pol: PolicySpec, s: Status)
    requires DryRunOk(s) && p.spec.mode == ModeDryRun && s.phase in {PhasePending, PhaseValidating}
    ensures DryRunOk(Validating(p, pol, s).mem) && Validating(p, pol, s).events == []
  {
    NothingToRelease(p, s.nodes);
  }

  lemma DryRunPass(p: Pass, s: Status)
    requires DryRunOk(s) && p.spec.mode == ModeDryRun
    ensures DryRunOk(Reconcile(p, s).mem) && Reconcile(p, s).events == []
  {
    NothingToRelease(p, s.nodes);
    if Proceeds(p, s) && s.phase in {PhasePending, PhaseValidating} {
      DryRunValidating(p, PolicyOf(p), s);
    }
  }

  /** A dry run makes no call and evaluates no gate: its trace stays empty and it never plans for execution. */
  lemma {:induction false} DryRunNeverMutates(ps: seq<Pass>)
    requires AllInMode(ps, ModeDryRun)
    ensures Run(ps).trace == [] && Run(ps).cordoned == {} && DryRunOk(Run(ps).status)
  {
    if ps != [] {
      var n := |ps| - 1;
      DryRunNeverMutates(ps[..n]);
      DryRunPass(ps[n], Run(ps[..n]).status);
    }
  }

  /** The mode must stay fixed for that: a planned request is started by a dry run pass exactly as by an execute pass. */
  lemma ModeIsNotCheckedAgain(p: Pass, q: Pass, s: Status)
    requires s.phase == PhasePlanned
    requires p.spec.mode == ModeDryRun && q == p.(spec := p.spec.(mode := ModeExecute))
    ensures Reconcile(p, s) == Reconcile(q, s)
  {
    SameRelease(p, q, s.nodes, |s.nodes|);
    if Proceeds(p, s) {
      SameStart(p, q, PolicyOf(p), s);
    }
  }

  lemma SameStart(p: Pass, q: Pass, pol: PolicySpec, s: Status)
    requires p.spec.mode == ModeDryRun && q == p.(spec := p.spec.(mode := ModeExecute))
    ensures Planned(p, pol, s) == Planned(q, pol, s)
  {
    SameRelease(p, q, s.nodes, |s.nodes|);
  }

  lemma {:induction false} SameRelease(p: Pass, q: Pass, ns: seq<NodeRec>, k: nat)
    requires k <= |ns| && p.answers == q.answers
    ensures ReleaseTo(p, ns, k) == ReleaseTo(q, ns, k)
  {
    if k > 0 {
      SameRelease(p, q, ns, k - 1);
    }
  }
}
