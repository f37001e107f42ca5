/** One reconcile pass over one request, as a function of everything the pass reads. */
module Passes {
  import opened Api
  import opened NodeMachine
  import Approval
  import Planner
  import Policy
  import Preflight
  import StateMachine

  /** Timeouts used when the request leaves its own unset. */
  datatype Config = Config(drainTimeout: int, globalTimeout: int, replacementTimeout: int)

  /** Everything a pass reads besides the stored status: the spec as it is then, the policy (None when it
    * cannot be resolved), the clock, and the cluster's answers. writeOk: the status write is stored. */
  datatype Pass = Pass(
    spec: RequestSpec,
    policy: Option<PolicySpec>,
    config: Config,
    now: int,
    target: Option<Target>,
    preflightError: bool,
    otherFailures: bool,
    planError: bool,
    windows: Option<bool>,
    others: Option<nat>,
    answers: seq<NodeAnswer>,
    writeOk: bool)

  /** What a pass does: the status it holds in the end, whether it tries to write it, its calls, and every
    * request phase it assigns. */
  datatype Out = Out(mem: Status, wrote: bool, events: seq<Event>, phases: seq<Phase>, err: bool)

  function After(events: seq<Event>, phases: seq<Phase>, o: Out): Out {
    o.(events := events + o.events, phases := phases + o.phases)
  }

  /** A pass that leaves the status alone. */
  function Idle(s: Status): Out {
    Out(s, false, [], [], false)
  }

  function Enter(s: Status, phase: Phase): Out {
    Out(s.(phase := phase), true, [], [phase], false)
  }

  // ----- endings -----

  function Close(p: Pass, s: Status, phase: Phase, ending: Ending): Out {
    Out(s.(phase := phase, ending := ending,
           completionTime := if s.completionTime.None? then Some(p.now) else s.completionTime),
        true, [], [phase], false)
  }

  function Complete(p: Pass, s: Status): Out {
    Close(p, s, PhaseCompleted, Finished)
  }

  predicate Releases(spec: RequestSpec) {
    spec.uncordonAfter && !spec.ReplaceNodes()
  }

  /** The abort uncordons for the first k records. */
  function ReleaseTo(p: Pass, ns: seq<NodeRec>, k: nat): seq<Event>
    requires k <= |ns|
  {
    if k == 0 then []
    else
      ReleaseTo(p, ns, k - 1)
      + (if ShouldRelease(ns[k - 1].phase) then [UncordonCall(ns[k - 1].node, AnswerAt(p.answers, k - 1).uncordonOk, true)] else [])
  }

  function Release(p: Pass, s: Status): seq<Event> {
    if Releases(p.spec) then ReleaseTo(p, s.nodes, |s.nodes|) else []
  }

  function Fail(p: Pass, s: Status): Out {
    After(Release(p, s), [], Close(p, s, PhaseFailed, Aborted))
  }

  function Cancel(p: Pass, s: Status, why: Ending): Out {
    After(if why == CancelledByUser then Release(p, s) else [], [], Close(p, s, PhaseCancelled, why))
  }

  // ----- timeouts -----

  function Effective(own: int, fallback: int): int {
    if own > 0 then own else fallback
  }

  predicate GlobalTimedOut(p: Pass, s: Status) {
    TimedOut(s.startTime, p.now, Effective(p.spec.globalTimeout, p.config.globalTimeout))
  }

  function ReplacementTimeout(p: Pass): int {
    if p.spec.upgrade.Some? then Effective(p.spec.upgrade.value.replacementTimeout, p.config.replacementTimeout)
    else p.config.replacementTimeout
  }

  // ----- phases -----

  function PlanFor(p: Pass, pol: PolicySpec, t: Target): Plan {
    Planner.BuildPlan(p.spec.strategy, t.nodes, p.spec.batchSize, Policy.Concurrency(pol, p.spec.maxConcurrent))
  }

  predicate PreflightFails(p: Pass, pol: PolicySpec, t: Target) {
    t.missing != [] || p.otherFailures || Preflight.TooManyUnavailable(pol, p.spec, t)
  }

  /** A validated request meets the drain gate. */
  function RouteAtDrainGate(p: Pass, s: Status, verdict: Verdict): Out {
    After([Judged(GateDrain, verdict)], [],
      match verdict
      case Rejected => Cancel(p, s, RejectedAtGate(GateDrain))
      case Undecided => Enter(s.(gate := Some(GateDrain)), PhaseAwaitingApproval)
      case Approved => Enter(s, PhasePlanned)
      case NotRequired => Enter(s, PhasePlanned))
  }

  /** A request whose target has nodes is checked, planned and routed. */
  function Admit(p: Pass, pol: PolicySpec, s: Status, t: Target): Out {
    if p.preflightError then Out(s, false, [], [], true)
    else if PreflightFails(p, pol, t) then Enter(s, PhaseBlocked)
    else if p.planError then Out(s, false, [], [], true)
    else
      var planned := s.(plan := Some(PlanFor(p, pol, t)));
      if p.spec.mode.ModeDryRun? then Complete(p, planned)
      else RouteAtDrainGate(p, planned, VerdictAt(p, pol, GateDrain))
  }

  function Resolve(p: Pass, pol: PolicySpec, s: Status): Out {
    if p.target.None? then Fail(p, s)
    else if p.target.value.nodes == [] && p.target.value.missing == [] then Complete(p, s)
    else Admit(p, pol, s, p.target.value)
  }

  /** Pending or Validating: resolve, check, plan and route. */
  function Validating(p: Pass, pol: PolicySpec, s: Status): Out {
    After([], [PhaseValidating], Resolve(p, pol, s.(phase := PhaseValidating)))
  }

  function PendingGate(s: Status): Gate {
    if s.gate.None? then GateDrain else s.gate.value
  }

  function NextPhaseAfterGate(gate: Gate): Phase {
    if gate == GateUncordon then PhaseExecuting else PhasePlanned
  }

  function Settle(p: Pass, s: Status, gate: Gate, verdict: Verdict): Out {
    After([Judged(gate, verdict)], [],
      match verdict
      case Approved => Enter(s.(gate := None), NextPhaseAfterGate(gate))
      case NotRequired => Enter(s.(gate := None), NextPhaseAfterGate(gate))
      case Rejected => Cancel(p, s, RejectedAtGate(gate))
      case Undecided => Idle(s))
  }

  function VerdictAt(p: Pass, pol: PolicySpec, gate: Gate): Verdict {
    Approval.Evaluate(Policy.ApprovalFor(pol, p.spec), p.spec.gates, gate)
  }

  /** Awaiting approval: wait for the decision on the pending gate. */
  function AwaitingApproval(p: Pass, pol: PolicySpec, s: Status): Out {
    Settle(p, s, PendingGate(s), VerdictAt(p, pol, PendingGate(s)))
  }

  /** One pending record per planned node, batch after batch. */
  function PendingRecs(names: seq<string>, batch: int): (r: seq<NodeRec>)
    ensures |r| == |names|
    ensures forall i | 0 <= i < |names| :: r[i] == NodeRec(names[i], NodePending, batch, None, None, 0, 0, 0, 0, NoReason)
  {
    seq(|names|, i requires 0 <= i < |names| => NodeRec(names[i], NodePending, batch, None, None, 0, 0, 0, 0, NoReason))
  }

  function InitNodes(batches: seq<Batch>): seq<NodeRec> {
    if batches == [] then []
    else
      var b := batches[|batches| - 1];
      InitNodes(batches[..|batches| - 1]) + PendingRecs(b.nodes, b.index)
  }

  /** Execution begins: the records are made, unless there are some, and the clock starts, unless it runs. */
  function Begin(p: Pass, s: Status, plan: Plan): Out {
    var nodes := if s.nodes == [] then InitNodes(plan.batches) else s.nodes;
    Enter(s.(nodes := nodes, summary := Recount(nodes), startTime := if s.startTime.None? then Some(p.now) else s.startTime),
          PhaseExecuting)
  }

  /** Starts execution of the plan, unless there is nothing to do or the window is not open. */
  function StartPlan(p: Pass, s: Status, plan: Plan): Out {
    var planned := s.(plan := Some(plan));
    if p.spec.mode.ModeAdvisory? then Out(planned, true, [], [], false)
    else if plan.totalNodes == 0 then Complete(p, planned)
    else if p.windows.None? then Fail(p, planned)
    else if !p.windows.value then Out(planned, true, [], [], false)
    else Begin(p, planned, plan)
  }

  /** Planned: plan again, wait for the window, start. */
  function Planned(p: Pass, pol: PolicySpec, s: Status): Out {
    if p.target.None? then Fail(p, s)
    else if p.planError then Out(s, false, [], [], true)
    else StartPlan(p, s, PlanFor(p, pol, p.target.value))
  }

  predicate UncordonGated(p: Pass, pol: PolicySpec) {
    Approval.RequiresGate(Policy.ApprovalFor(pol, p.spec), GateUncordon) && !p.spec.ReplaceNodes()
  }

  /** Drained nodes must wait: the uncordon gate applies and is not approved. */
  predicate UncordonHeld(p: Pass, pol: PolicySpec) {
    UncordonGated(p, pol) && VerdictAt(p, pol, GateUncordon) != Approved
  }

  /** How many nodes may be in flight: the request's own concurrency, and what the cluster-wide cap leaves. */
  function Budget(p: Pass, pol: PolicySpec): int {
    var own := Policy.Concurrency(pol, p.spec.maxConcurrent);
    var others := if p.others.None? then 0 else p.others.value;
    if pol.maxConcurrentDrains > 0 && pol.maxConcurrentDrains - others < own
    then pol.maxConcurrentDrains - others
    else own
  }

  function ContextOf(p: Pass, pol: PolicySpec): StepContext {
    StepContext(p.spec, Budget(p, pol), p.windows == Some(true), UncordonHeld(p, pol), p.now,
                Effective(p.spec.drainTimeout, p.config.drainTimeout), ReplacementTimeout(p))
  }

  function CompleteExecution(p: Pass, s: Status): Out {
    var counted := s.(summary := Recount(s.nodes));
    if CountIn(s.nodes, {NodeFailed}) > 0 then Fail(p, counted)
    else if CountIn(s.nodes, {NodeBlocked}) > 0 then Enter(counted, PhaseBlocked)
    else Complete(p, counted)
  }

  function Threshold(pol: PolicySpec): int {
    if pol.failureThreshold < 1 then 1 else pol.failureThreshold
  }

  function RunBatch(p: Pass, pol: PolicySpec, s: Status): LoopOut {
    StepTo(ContextOf(p, pol), p.answers, CurrentBatch(s.nodes), s.nodes, CountIn(s.nodes, IN_FLIGHT), |s.nodes|)
  }

  /** What becomes of the request once the batch has been visited: an error only saves the progress made. */
  function Conclude(p: Pass, s: Status, err: bool): Out {
    if !err && CurrentBatch(s.nodes) < 0 then CompleteExecution(p, s)
    else Out(s.(summary := Recount(s.nodes)), true, [], [], err)
  }

  function AfterBatch(p: Pass, s: Status, o: LoopOut): Out {
    After(o.events, [], Conclude(p, s.(nodes := o.nodes), o.err))
  }

  /** Executing, once timeout, plan and failure threshold have been checked. */
  function Advance(p: Pass, pol: PolicySpec, s: Status): Out {
    if UncordonHeld(p, pol) && CountIn(s.nodes, {NodePostCheck}) > 0 then
      Enter(s.(gate := Some(GateUncordon)), PhaseAwaitingApproval)
    else if CurrentBatch(s.nodes) < 0 then CompleteExecution(p, s)
    else AfterBatch(p, s, RunBatch(p, pol, s))
  }

  /** The uncordon gate is evaluated, unless nodes are replaced, and the request advances. */
  function JudgeAndAdvance(p: Pass, pol: PolicySpec, s: Status): Out {
    if p.spec.ReplaceNodes() then Advance(p, pol, s)
    else After([Judged(GateUncordon, VerdictAt(p, pol, GateUncordon))], [], Advance(p, pol, s))
  }

  function Executing(p: Pass, pol: PolicySpec, s: Status): Out {
    if GlobalTimedOut(p, s) then Fail(p, s)
    else if s.plan.None? then Fail(p, s)
    else if CountIn(s.nodes, {NodeFailed}) >= Threshold(pol) then Fail(p, s)
    else JudgeAndAdvance(p, pol, s)
  }

  function ResumePhase(s: Status): Phase {
    if s.gate.Some? then PhaseAwaitingApproval
    else if s.plan.Some? && s.nodes != [] then PhaseExecuting
    else if s.plan.Some? then PhasePlanned
    else PhaseValidating
  }

  function Paused(p: Pass, s: Status): Out {
    if p.spec.pause then Idle(s) else Enter(s, ResumePhase(s))
  }

  function RetryRec(r: NodeRec, now: int): NodeRec {
    if r.phase == NodeBlocked
    then r.(phase := NodeDraining, blockReason := NoReason, startTime := Some(now), endTime := None)
    else r
  }

  function RetryAll(ns: seq<NodeRec>, now: int): (r: seq<NodeRec>)
    ensures |r| == |ns|
    ensures forall i | 0 <= i < |ns| :: r[i] == RetryRec(ns[i], now)
  {
    seq(|ns|, i requires 0 <= i < |ns| => RetryRec(ns[i], now))
  }

  function Blocked(p: Pass, s: Status): Out {
    if GlobalTimedOut(p, s) then Fail(p, s)
    else if s.plan.Some? && s.nodes != [] then
      if CountIn(s.nodes, {NodeBlocked}) == 0 then Idle(s)
      else
        var ns := RetryAll(s.nodes, p.now);
        Enter(s.(nodes := ns, summary := Recount(ns)), PhaseExecuting)
    else Enter(s, PhaseValidating)
  }

  predicate CanPause(ph: Phase) {
    ph in {PhasePlanned, PhaseExecuting, PhaseBlocked, PhaseAwaitingApproval}
  }

  /** The request is neither new, finished, cancelled nor held, and its policy is known. */
  predicate Proceeds(p: Pass, s: Status) {
    && s.phase != PhaseNone && !StateMachine.IsTerminal(s.phase)
    && !p.spec.cancel && !(p.spec.pause && CanPause(s.phase)) && p.policy.Some?
  }

  function Dispatch(p: Pass, pol: PolicySpec, s: Status): Out {
    match s.phase
    case PhasePending => Validating(p, pol, s)
    case PhaseValidating => Validating(p, pol, s)
    case PhaseAwaitingApproval => AwaitingApproval(p, pol, s)
    case PhasePlanned => Planned(p, pol, s)
    case PhaseExecuting => Executing(p, pol, s)
    case PhasePaused => Paused(p, s)
    case PhaseBlocked => Blocked(p, s)
    case _ => Idle(s)
  }

  function PolicyOf(p: Pass): PolicySpec
    requires p.policy.Some?
  {
    Policy.WithDefaults(p.policy.value)
  }

  /** The whole pass: first observation, finished, cancel, pause, policy, then the phase. */
  function Reconcile(p: Pass, s: Status): Out {
    if s.phase == PhaseNone then Enter(s, StateMachine.INITIAL_PHASE)
    else if StateMachine.IsTerminal(s.phase) then Idle(s)
    else if p.spec.cancel then Cancel(p, s, CancelledByUser)
    else if p.spec.pause && CanPause(s.phase) then Enter(s, PhasePaused)
    else if p.policy.None? then Fail(p, s)
    else Dispatch(p, PolicyOf(p), s)
  }

  // ----- runs -----

  /** The stored status, every call made so far, and the nodes the request may have left unschedulable:
    * cordoned, even if the call reported an error, and neither uncordoned nor seen gone since. */
  datatype World = World(status: Status, trace: seq<Event>, cordoned: set<string>)

  const START := World(NEW_STATUS, [], {})

  function Effect(cordoned: set<string>, e: Event): set<string> {
    match e
    case CordonCall(n, _) => cordoned + {n}
    case UncordonCall(n, ok, _) => if ok then cordoned - {n} else cordoned
    case GoneSeen(n) => cordoned - {n}
    case _ => cordoned
  }

  function Effects(cordoned: set<string>, events: seq<Event>): set<string> {
    if events == [] then cordoned
    else Effect(Effects(cordoned, events[..|events| - 1]), events[|events| - 1])
  }

  /** A pass always leaves its calls behind, but its status only when the write is stored. */
  function Next(w: World, p: Pass): World {
    var o := Reconcile(p, w.status);
    World(if o.wrote && p.writeOk then o.mem else w.status, w.trace + o.events, Effects(w.cordoned, o.events))
  }

  /** The run of a sequence of passes, from a given world. */
  function RunFrom(w: World, ps: seq<Pass>): World {
    if ps == [] then w else Next(RunFrom(w, ps[..|ps| - 1]), ps[|ps| - 1])
  }

  /** A request's whole life: any number of passes, each with any spec, policy, clock and answers. */
  function Run(ps: seq<Pass>): World {
    RunFrom(START, ps)
  }

  lemma {:induction false} EffectsConcat(cordoned: set<string>, a: seq<Event>, b: seq<Event>)
    ensures Effects(cordoned, a + b) == Effects(Effects(cordoned, a), b)
  {
    if b == [] {
      assert a + b == a;
    } else {
      var n := |b| - 1;
      assert (a + b)[..|a + b| - 1] == a + b[..n];
      EffectsConcat(cordoned, a, b[..n]);
    }
  }
}
