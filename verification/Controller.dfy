/** The controller as it works: a request whose status its methods update in place, pass by pass. Each method is held
  * to the function of Passes or NodeMachine that the properties are proved about. */
module Controller {
  import opened Api
  import opened NodeMachine
  import opened StateMachine
  import Approval
  import Caps
  import Passes
  import Planner
  import Policy
  import Preflight

  /** The context of a step with the given limit and window. */
  function Given(p: Passes.Pass, pol: PolicySpec, concurrency: int, windowOpen: bool): StepContext {
    Passes.ContextOf(p, pol).(concurrency := concurrency, windowOpen := windowOpen)
  }

  /** A request object: the stored status, and the copy a pass works on. */
  class Request {
    var stored: Status
    var phase: Phase
    var gate: Option<Gate>
    var plan: Option<Plan>
    var nodes: array<NodeRec>
    var summary: Summary
    var startTime: Option<int>
    var completionTime: Option<int>
    var ending: Ending
    /** Every call made so far, in order. */
    var trace: seq<Event>
    /** Every phase given to the request so far, in order. */
    ghost var phases: seq<Phase>

    constructor ()
      ensures World() == Passes.START && phases == []
    {
      stored, trace, phases := NEW_STATUS, [], [];
      phase, gate, plan, summary, startTime, completionTime, ending := PhaseNone, None, None, NO_SUMMARY, None, None, Running;
      nodes := new NodeRec[0];
    }

    /** The working copy as a value. */
    function Mem(): Status
      reads this, nodes
    {
      Status(phase, gate, plan, nodes[..], summary, startTime, completionTime, ending)
    }

    /** What others can see: the store, and the calls with their effect on the cluster. */
    ghost function World(): Passes.World
      reads this
    {
      Passes.World(stored, trace, Passes.Effects({}, trace))
    }

    /** The state has come about as the outcome says. */
    twostate predicate Did(p: Passes.Pass, o: Passes.Out)
      reads this, nodes
    {
      && Mem() == o.mem
      && stored == (if o.wrote && p.writeOk then o.mem else old(stored))
      && trace == old(trace) + o.events
      && phases == old(phases) + o.phases
    }

    method Load()
      modifies this
      ensures Mem() == stored && fresh(nodes)
      ensures stored == old(stored) && trace == old(trace) && phases == old(phases)
    {
      var s := stored;
      phase, gate, plan, summary := s.phase, s.gate, s.plan, s.summary;
      startTime, completionTime, ending := s.startTime, s.completionTime, s.ending;
      SetNodes(s.nodes);
    }

    method SetNodes(ns: seq<NodeRec>)
      modifies this`nodes
      ensures fresh(nodes) && nodes[..] == ns
    {
      nodes := new NodeRec[|ns|](i requires 0 <= i < |ns| => ns[i]);
    }

    method UpdateStatus(p: Passes.Pass)
      modifies this`stored
      ensures stored == if p.writeOk then Mem() else old(stored)
    {
      if p.writeOk {
        stored := Mem();
      }
    }

    method SetPhase(next: Phase)
      modifies this`phase, this`phases
      ensures phase == next && phases == old(phases) + [next]
    {
      phase, phases := next, phases + [next];
    }

    // ----- counting -----

    method CountInFlight() returns (n: nat)
      ensures n == CountIn(nodes[..], IN_FLIGHT)
    {
      n := 0;
      for i := 0 to nodes.Length
        invariant n == CountIn(nodes[..i], IN_FLIGHT)
      {
        assert nodes[..i + 1][..i] == nodes[..i];
        match nodes[i].phase {
          case NodeCordoning | NodeDraining | NodePostCheck | NodeUncordoning | NodeReplacing | NodeAwaitingReplacement =>
            n := n + 1;
          case _ =>
        }
      }
      assert nodes[..nodes.Length] == nodes[..];
    }

    method CountNodePhase(ph: NodePhase) returns (n: nat)
      ensures n == CountIn(nodes[..], {ph})
    {
      n := 0;
      for i := 0 to nodes.Length
        invariant n == CountIn(nodes[..i], {ph})
      {
        assert nodes[..i + 1][..i] == nodes[..i];
        if nodes[i].phase == ph {
          n := n + 1;
        }
      }
      assert nodes[..nodes.Length] == nodes[..];
    }

    method AnyNodeAtPostCheck() returns (any: bool)
      ensures any <==> CountIn(nodes[..], {NodePostCheck}) > 0
      ensures any <==> exists i :: 0 <= i < nodes.Length && nodes[i].phase == NodePostCheck
    {
      CountBounds(nodes[..], {NodePostCheck});
      for i := 0 to nodes.Length
        invariant forall j | 0 <= j < i :: nodes[j].phase != NodePostCheck
      {
        if nodes[i].phase == NodePostCheck {
          assert nodes[..][i].phase in {NodePostCheck};
          return true;
        }
      }
      assert forall j | 0 <= j < nodes.Length :: nodes[..][j].phase !in {NodePostCheck};
      return false;
    }

    /** The lowest batch with a node that is not terminal, or -1 when there is none. */
    method LowestOpenBatch() returns (best: int)
      ensures best == CurrentBatch(nodes[..])
    {
      best := -1;
      for i := 0 to nodes.Length
        invariant best == CurrentBatch(nodes[..i])
      {
        assert nodes[..i + 1][..i] == nodes[..i];
        if IsNodeTerminal(nodes[i].phase) {
          continue;
        }
        var idx := nodes[i].batch;
        if best == -1 || idx < best {
          best := idx;
        }
      }
      assert nodes[..nodes.Length] == nodes[..];
    }

    method RecomputeSummary()
      modifies this`summary
      ensures summary == Recount(nodes[..])
    {
      var s := NO_SUMMARY;
      for i := 0 to nodes.Length
        invariant s == Recount(nodes[..i])
      {
        RecountOne(nodes[..i], nodes[i]);
        assert nodes[..i + 1] == nodes[..i] + [nodes[i]];
        s := s.(total := s.total + 1);
        match nodes[i].phase {
          case NodePending => s := s.(pending := s.pending + 1);
          case NodeCordoning | NodeDraining | NodePostCheck | NodeUncordoning | NodeReplacing | NodeAwaitingReplacement =>
            s := s.(inProgress := s.inProgress + 1);
          case NodeCompleted => s := s.(completed := s.completed + 1);
          case NodeBlocked => s := s.(blocked := s.blocked + 1);
          case NodeFailed => s := s.(failed := s.failed + 1);
          case NodeSkipped => s := s.(skipped := s.skipped + 1);
        }
      }
      assert nodes[..nodes.Length] == nodes[..];
      summary := s;
    }

    // ----- endings -----

    /** Best-effort uncordon of every node an aborting request may have cordoned; errors do not stop it. */
    method ReleaseCordonedNodes(p: Passes.Pass)
      modifies this`trace
      ensures trace == old(trace) + Passes.Release(p, Mem())
    {
      if !p.spec.uncordonAfter || p.spec.ReplaceNodes() {
        return;
      }
      for i := 0 to nodes.Length
        invariant trace == old(trace) + Passes.ReleaseTo(p, nodes[..], i)
      {
        if ShouldRelease(nodes[i].phase) {
          trace := trace + [UncordonCall(nodes[i].node, AnswerAt(p.answers, i).uncordonOk, true)];
        }
      }
    }

    method Close(p: Passes.Pass, next: Phase, why: Ending)
      modifies this
      ensures nodes == old(nodes) && Did(p, Passes.Close(p, old(Mem()), next, why))
    {
      SetPhase(next);
      ending := why;
      if completionTime.None? {
        completionTime := Some(p.now);
      }
      UpdateStatus(p);
    }

    method Complete(p: Passes.Pass)
      modifies this
      ensures nodes == old(nodes) && Did(p, Passes.Complete(p, old(Mem())))
    {
      Close(p, PhaseCompleted, Finished);
    }

    method Fail(p: Passes.Pass)
      modifies this
      ensures nodes == old(nodes) && Did(p, Passes.Fail(p, old(Mem())))
    {
      ReleaseCordonedNodes(p);
      Close(p, PhaseFailed, Aborted);
    }

    method Cancel(p: Passes.Pass, why: Ending)
      modifies this
      ensures nodes == old(nodes) && Did(p, Passes.Cancel(p, old(Mem()), why))
    {
      if why == CancelledByUser {
        ReleaseCordonedNodes(p);
      }
      Close(p, PhaseCancelled, why);
    }

    method Enter(p: Passes.Pass, next: Phase)
      modifies this
      ensures nodes == old(nodes) && Did(p, Passes.Enter(old(Mem()), next))
    {
      SetPhase(next);
      UpdateStatus(p);
    }

    // ----- one node -----

    method SetNodeTerminal(i: nat, next: NodePhase, reason: BlockReason, now: int)
      requires i < nodes.Length
      modifies nodes
      ensures nodes[..] == old(nodes[..])[i := SetTerminal(old(nodes[i]), next, reason, now)]
    {
      nodes[i] := nodes[i].(phase := next, blockReason := reason);
      if nodes[i].endTime.None? {
        nodes[i] := nodes[i].(endTime := Some(now));
      }
    }

    /** A step has moved node i, the counter and the trace as the outcome says. */
    twostate predicate Moved(i: nat, o: StepOut, inFlight: int, err: bool)
      requires i < old(nodes.Length)
      reads this, nodes
    {
      && nodes == old(nodes)
      && nodes[..] == old(nodes[..])[i := o.rec]
      && trace == old(trace) + o.events
      && inFlight == o.inFlight
      && err == o.err
    }

    method StepPendingNode(p: Passes.Pass, pol: PolicySpec, i: nat, inFlight: int, concurrency: int, windowOpen: bool)
      returns (n: int, err: bool)
      requires i < nodes.Length
      modifies nodes
      ensures Moved(i, StepPending(Given(p, pol, concurrency, windowOpen), AnswerAt(p.answers, i), old(nodes[i]), inFlight), n, err)
    {
      n, err := inFlight, false;
      if inFlight >= concurrency || !windowOpen {
        return;
      }
      match AnswerAt(p.answers, i).lookup {
        case LookupError =>
          err := true;
        case NodeNotFound =>
          SetNodeTerminal(i, NodeSkipped, NoReason, p.now);
        case NodeFound(mco, version) =>
          var v := p.spec.TargetVersion();
          if mco || (v != "" && version == v) {
            SetNodeTerminal(i, NodeSkipped, NoReason, p.now);
          } else {
            nodes[i] := nodes[i].(startTime := Some(p.now), endTime := None, phase := NodeCordoning);
            n := n + 1;
          }
      }
    }

    method StepDrainingNode(p: Passes.Pass, pol: PolicySpec, i: nat, inFlight: int, concurrency: int, windowOpen: bool)
      returns (n: int, err: bool)
      requires i < nodes.Length
      modifies this`trace, nodes
      ensures Moved(i, StepDraining(Given(p, pol, concurrency, windowOpen), AnswerAt(p.answers, i), old(nodes[i]), inFlight), n, err)
    {
      n, err := inFlight, false;
      var evicted := AnswerAt(p.answers, i).evict;
      if evicted.None? {
        trace := trace + [EvictRound(nodes[i].node, None)];
        err := true;
        return;
      }
      var res := evicted.value;
      trace := trace + [EvictRound(nodes[i].node, Some(res.blocking))];
      if nodes[i].totalPods == 0 && res.blocking > 0 {
        nodes[i] := nodes[i].(totalPods := res.blocking);
      }
      nodes[i] := nodes[i].(evictedPods := nodes[i].evictedPods + res.evicted, remainingPods := res.blocking);
      if res.blocking == 0 {
        nodes[i] := nodes[i].(phase := NodePostCheck);
        return;
      }
      if TimedOut(nodes[i].startTime, p.now, Passes.Effective(p.spec.drainTimeout, p.config.drainTimeout)) {
        var reason := res.reason;
        if reason == NoReason {
          reason := BlockTimeout;
        }
        SetNodeTerminal(i, NodeBlocked, reason, p.now);
        n := n - 1;
      }
    }

    method StepPostCheckNode(p: Passes.Pass, pol: PolicySpec, i: nat, inFlight: int, concurrency: int, windowOpen: bool, uncordonGated: bool)
      returns (n: int, err: bool)
      requires i < nodes.Length && uncordonGated == Passes.UncordonGated(p, pol)
      modifies nodes
      ensures Moved(i, StepPostCheck(Given(p, pol, concurrency, windowOpen), old(nodes[i]), inFlight), n, err)
    {
      n, err := inFlight, false;
      if p.spec.ReplaceNodes() {
        nodes[i] := nodes[i].(phase := NodeReplacing);
        return;
      }
      if !p.spec.uncordonAfter {
        SetNodeTerminal(i, NodeCompleted, NoReason, p.now);
        n := n - 1;
        return;
      }
      if uncordonGated && !UncordonApproved(p, pol) {
        return;
      }
      nodes[i] := nodes[i].(phase := NodeUncordoning);
    }

    method StepReplacingNode(p: Passes.Pass, pol: PolicySpec, i: nat, inFlight: int, concurrency: int, windowOpen: bool)
      returns (n: int, err: bool)
      requires i < nodes.Length
      modifies this`trace, nodes
      ensures Moved(i, StepReplacing(Given(p, pol, concurrency, windowOpen), AnswerAt(p.answers, i), old(nodes[i]), inFlight), n, err)
    {
      n, err := inFlight, false;
      var a := AnswerAt(p.answers, i);
      if p.spec.TargetVersion() != "" {
        if a.ready.None? {
          err := true;
          return;
        }
        nodes[i] := nodes[i].(baseline := a.ready.value);
      }
      trace := trace + [ReplaceCall(nodes[i].node, a.replace)];
      match a.replace {
        case ReplaceError =>
          err := true;
        case NoMachine =>
          SetNodeTerminal(i, NodeFailed, BlockMachineNotFound, p.now);
          n := n - 1;
        case MachineDeleted =>
          nodes[i] := nodes[i].(phase := NodeAwaitingReplacement);
      }
    }

    /** A node whose replacement is not there yet is blocked once its time is up. */
    method KeepWaiting(p: Passes.Pass, pol: PolicySpec, i: nat, inFlight: int, concurrency: int, windowOpen: bool)
      returns (n: int)
      requires i < nodes.Length
      modifies nodes
      ensures Moved(i, WaitForReplacement(Given(p, pol, concurrency, windowOpen), old(nodes[i]), inFlight, []), n, false)
    {
      n := inFlight;
      var timeout := Passes.Effective(p.spec.drainTimeout, p.config.drainTimeout) + Passes.ReplacementTimeout(p);
      if TimedOut(nodes[i].startTime, p.now, timeout) {
        SetNodeTerminal(i, NodeBlocked, BlockReplaceTimeout, p.now);
        n := n - 1;
      }
    }

    method StepAwaitingNode(p: Passes.Pass, pol: PolicySpec, i: nat, inFlight: int, concurrency: int, windowOpen: bool)
      returns (n: int, err: bool)
      requires i < nodes.Length
      modifies this`trace, nodes
      ensures Moved(i, StepAwaitingReplacement(Given(p, pol, concurrency, windowOpen), AnswerAt(p.answers, i), old(nodes[i]), inFlight), n, err)
    {
      n, err := inFlight, false;
      var a := AnswerAt(p.answers, i);
      if a.gone.None? {
        err := true;
        return;
      }
      if !a.gone.value {
        n := KeepWaiting(p, pol, i, inFlight, concurrency, windowOpen);
        return;
      }
      trace := trace + [GoneSeen(nodes[i].node)];
      if p.spec.TargetVersion() != "" {
        if a.ready.None? {
          err := true;
          return;
        }
        if a.ready.value <= nodes[i].baseline {
          n := KeepWaiting(p, pol, i, inFlight, concurrency, windowOpen);
          return;
        }
      }
      SetNodeTerminal(i, NodeCompleted, NoReason, p.now);
      n := n - 1;
    }

    /** Advances node i by one step; n is the new number in flight. */
    method StepNode(p: Passes.Pass, pol: PolicySpec, i: nat, inFlight: int, concurrency: int, windowOpen: bool, uncordonGated: bool)
      returns (n: int, err: bool)
      requires i < nodes.Length && uncordonGated == Passes.UncordonGated(p, pol)
      modifies this`trace, nodes
      ensures Moved(i, Step(Given(p, pol, concurrency, windowOpen), AnswerAt(p.answers, i), old(nodes[i]), inFlight), n, err)
    {
      n, err := inFlight, false;
      match nodes[i].phase {
        case NodePending =>
          n, err := StepPendingNode(p, pol, i, inFlight, concurrency, windowOpen);
        case NodeCordoning =>
          var ok := AnswerAt(p.answers, i).cordonOk;
          trace := trace + [CordonCall(nodes[i].node, ok)];
          if ok {
            nodes[i] := nodes[i].(phase := NodeDraining);
          }
          err := !ok;
        case NodeDraining =>
          n, err := StepDrainingNode(p, pol, i, inFlight, concurrency, windowOpen);
        case NodePostCheck =>
          n, err := StepPostCheckNode(p, pol, i, inFlight, concurrency, windowOpen, uncordonGated);
        case NodeUncordoning =>
          var ok := AnswerAt(p.answers, i).uncordonOk;
          trace := trace + [UncordonCall(nodes[i].node, ok, false)];
          if ok {
            SetNodeTerminal(i, NodeCompleted, NoReason, p.now);
            n := n - 1;
          }
          err := !ok;
        case NodeReplacing =>
          n, err := StepReplacingNode(p, pol, i, inFlight, concurrency, windowOpen);
        case NodeAwaitingReplacement =>
          n, err := StepAwaitingNode(p, pol, i, inFlight, concurrency, windowOpen);
        case _ =>
      }
    }

    // ----- executing -----

    /** The visit that began with trace before has come to where the outcome says. */
    ghost predicate Visited(o: LoopOut, before: seq<Event>, inFlight: int)
      reads this, nodes
    {
      nodes[..] == o.nodes && trace == before + o.events && inFlight == o.inFlight
    }

    /** The visit of node i, which is in the batch and not terminal. */
    method VisitNode(p: Passes.Pass, pol: PolicySpec, i: nat, inFlight: int, concurrency: int, windowOpen: bool, uncordonGated: bool,
                     ghost o: LoopOut, ghost before: seq<Event>)
      returns (n: int, err: bool)
      requires i < nodes.Length && uncordonGated == Passes.UncordonGated(p, pol)
      requires Visited(o, before, inFlight)
      modifies this`trace, nodes
      ensures var s := Step(Given(p, pol, concurrency, windowOpen), AnswerAt(p.answers, i), o.nodes[i], o.inFlight);
              Visited(LoopOut(o.nodes[i := s.rec], s.inFlight, o.events + s.events, s.err), before, n) && err == s.err
    {
      assert nodes[i] == nodes[..][i];
      n, err := StepNode(p, pol, i, inFlight, concurrency, windowOpen, uncordonGated);
    }

    /** Visits the nodes of the batch in order; the first error ends the visit. */
    method VisitBatch(p: Passes.Pass, pol: PolicySpec, batch: int, inFlight: int, concurrency: int, windowOpen: bool, uncordonGated: bool)
      returns (err: bool)
      requires uncordonGated == Passes.UncordonGated(p, pol)
      modifies this`trace, nodes
      ensures var o := StepTo(Given(p, pol, concurrency, windowOpen), p.answers, batch, old(nodes[..]), inFlight, old(nodes.Length));
              nodes[..] == o.nodes && trace == old(trace) + o.events && err == o.err
    {
      ghost var c, ns := Given(p, pol, concurrency, windowOpen), nodes[..];
      ghost var o := LoopOut(ns, inFlight, [], false);
      var n := inFlight;
      for i := 0 to nodes.Length
        invariant o == StepTo(c, p.answers, batch, ns, inFlight, i) && !o.err
        invariant Visited(o, old(trace), n)
      {
        assert nodes[i] == nodes[..][i] == ns[i];
        if nodes[i].batch != batch || IsNodeTerminal(nodes[i].phase) {
          continue;
        }
        n, err := VisitNode(p, pol, i, n, concurrency, windowOpen, uncordonGated, o, old(trace));
        o := StepTo(c, p.answers, batch, ns, inFlight, i + 1);
        if err {
          StepToStops(c, p.answers, batch, ns, inFlight, i + 1);
          return;
        }
      }
      err := false;
    }

    method CompleteExecution(p: Passes.Pass)
      modifies this
      ensures nodes == old(nodes) && Did(p, Passes.CompleteExecution(p, old(Mem())))
    {
      RecomputeSummary();
      var failed := CountNodePhase(NodeFailed);
      var blocked := CountNodePhase(NodeBlocked);
      if failed > 0 {
        Fail(p);
      } else if blocked > 0 {
        Enter(p, PhaseBlocked);
      } else {
        Complete(p);
      }
    }

    /** How many nodes may be in flight: the policy's cap leaves what the other requests do not use. */
    method Limit(p: Passes.Pass, pol: PolicySpec) returns (concurrency: int)
      ensures concurrency == Passes.Budget(p, pol)
    {
      concurrency := Policy.Concurrency(pol, p.spec.maxConcurrent);
      if pol.maxConcurrentDrains > 0 {
        var budget := pol.maxConcurrentDrains - (if p.others.None? then 0 else p.others.value);
        if budget < concurrency {
          concurrency := budget;
        }
      }
    }

    /** Saves the progress of a visit, or ends the execution when nothing is left to do. */
    method Conclude(p: Passes.Pass, err: bool)
      modifies this
      ensures nodes == old(nodes) && Did(p, Passes.Conclude(p, old(Mem()), err))
    {
      if err {
        RecomputeSummary();
        UpdateStatus(p);
        return;
      }
      var left := LowestOpenBatch();
      if left < 0 {
        CompleteExecution(p);
        return;
      }
      RecomputeSummary();
      UpdateStatus(p);
    }

    /** One visit of the current batch, and what becomes of the request. */
    method RunBatch(p: Passes.Pass, pol: PolicySpec, batch: int) returns (err: bool)
      requires batch == CurrentBatch(nodes[..])
      modifies this, nodes
      ensures nodes == old(nodes)
      ensures var o := Passes.AfterBatch(p, old(Mem()), Passes.RunBatch(p, pol, old(Mem()))); Did(p, o) && err == o.err
    {
      ghost var s := Mem();
      ghost var o: LoopOut;
      err, o := VisitCurrent(p, pol, batch);
      assert Mem() == s.(nodes := o.nodes);
      Conclude(p, err);
    }

    method VisitCurrent(p: Passes.Pass, pol: PolicySpec, batch: int) returns (err: bool, ghost o: LoopOut)
      requires batch == CurrentBatch(nodes[..])
      modifies this`trace, nodes
      ensures o == Passes.RunBatch(p, pol, old(Mem()))
      ensures nodes[..] == o.nodes && trace == old(trace) + o.events && err == o.err
    {
      var concurrency := Limit(p, pol);
      var inFlight := CountInFlight();
      assert Given(p, pol, concurrency, p.windows == Some(true)) == Passes.ContextOf(p, pol);
      o := Passes.RunBatch(p, pol, Mem());
      err := VisitBatch(p, pol, batch, inFlight, concurrency, p.windows == Some(true), Passes.UncordonGated(p, pol));
    }

    method Advance(p: Passes.Pass, pol: PolicySpec) returns (err: bool)
      modifies this, nodes
      ensures nodes == old(nodes)
      ensures var o := Passes.Advance(p, pol, old(Mem())); Did(p, o) && err == o.err
    {
      err := false;
      var drained := AnyNodeAtPostCheck();
      if Passes.UncordonGated(p, pol) && !UncordonApproved(p, pol) && drained {
        gate := Some(GateUncordon);
        Enter(p, PhaseAwaitingApproval);
        return;
      }
      var batch := LowestOpenBatch();
      if batch < 0 {
        CompleteExecution(p);
        return;
      }
      err := RunBatch(p, pol, batch);
    }

    static lemma Regrouped(a: seq<Event>, b: seq<Event>, c: seq<Event>)
      ensures a + b + c == a + (b + c)
    {
    }

    method JudgeAndAdvance(p: Passes.Pass, pol: PolicySpec) returns (err: bool)
      modifies this, nodes
      ensures nodes == old(nodes)
      ensures var o := Passes.JudgeAndAdvance(p, pol, old(Mem())); Did(p, o) && err == o.err
    {
      if p.spec.ReplaceNodes() {
        err := Advance(p, pol);
        return;
      }
      ghost var o := Passes.Advance(p, pol, Mem());
      var v := Judge(p, pol, GateUncordon);
      Regrouped(old(trace), [Judged(GateUncordon, v)], o.events);
      err := Advance(p, pol);
      assert Did(p, Passes.After([Judged(GateUncordon, v)], [], o));
    }

    method ReconcileExecuting(p: Passes.Pass, pol: PolicySpec) returns (err: bool)
      modifies this, nodes
      ensures nodes == old(nodes)
      ensures var o := Passes.Executing(p, pol, old(Mem())); Did(p, o) && err == o.err
    {
      err := false;
      if Passes.GlobalTimedOut(p, Mem()) {
        Fail(p);
        return;
      }
      if plan.None? {
        Fail(p);
        return;
      }
      var threshold := pol.failureThreshold;
      if threshold < 1 {
        threshold := 1;
      }
      var failed := CountNodePhase(NodeFailed);
      if failed >= threshold {
        Fail(p);
        return;
      }
      err := JudgeAndAdvance(p, pol);
    }

    // ----- the other phases -----

    method PreflightFails(p: Passes.Pass, pol: PolicySpec, t: Target) returns (fails: bool)
      ensures fails == Passes.PreflightFails(p, pol, t)
    {
      var crowded := Preflight.CheckUnavailability(pol, p.spec, t);
      fails := |t.missing| > 0 || p.otherFailures || crowded;
    }

    method BuildPlan(p: Passes.Pass, pol: PolicySpec, t: Target) returns (pl: Plan)
      ensures pl == Passes.PlanFor(p, pol, t)
    {
      var strategy := p.spec.strategy;
      if strategy == StrategyUnset {
        strategy := StrategySerial;
      }
      var concurrency := Policy.Concurrency(pol, p.spec.maxConcurrent);
      var batches := Planner.BuildBatches(strategy, t.nodes, p.spec.batchSize, concurrency);
      pl := Plan(strategy, batches, |t.nodes|, concurrency);
    }

    /** The verdict on a gate, noted in the trace. */
    method Judge(p: Passes.Pass, pol: PolicySpec, g: Gate) returns (v: Verdict)
      modifies this`trace
      ensures v == Passes.VerdictAt(p, pol, g) && trace == old(trace) + [Judged(g, v)]
    {
      v := Passes.VerdictAt(p, pol, g);
      trace := trace + [Judged(g, v)];
    }

    method PassDrainGate(p: Passes.Pass, pol: PolicySpec)
      modifies this
      ensures nodes == old(nodes)
      ensures Did(p, Passes.RouteAtDrainGate(p, old(Mem()), Passes.VerdictAt(p, pol, GateDrain)))
    {
      var v := Judge(p, pol, GateDrain);
      match v {
        case Rejected =>
          Cancel(p, RejectedAtGate(GateDrain));
        case Undecided =>
          gate := Some(GateDrain);
          Enter(p, PhaseAwaitingApproval);
        case Approved | NotRequired =>
          Enter(p, PhasePlanned);
      }
    }

    method Admit(p: Passes.Pass, pol: PolicySpec, t: Target) returns (err: bool)
      modifies this
      ensures nodes == old(nodes)
      ensures var o := Passes.Admit(p, pol, old(Mem()), t); Did(p, o) && err == o.err
    {
      err := false;
      if p.preflightError {
        err := true;
        return;
      }
      var fails := PreflightFails(p, pol, t);
      if fails {
        Enter(p, PhaseBlocked);
        return;
      }
      if p.planError {
        err := true;
        return;
      }
      var pl := BuildPlan(p, pol, t);
      plan := Some(pl);
      if p.spec.mode == ModeDryRun {
        Complete(p);
        return;
      }
      PassDrainGate(p, pol);
    }

    method Resolve(p: Passes.Pass, pol: PolicySpec) returns (err: bool)
      modifies this
      ensures nodes == old(nodes)
      ensures var o := Passes.Resolve(p, pol, old(Mem())); Did(p, o) && err == o.err
    {
      err := false;
      if p.target.None? {
        Fail(p);
        return;
      }
      var t := p.target.value;
      if |t.nodes| == 0 && |t.missing| == 0 {
        Complete(p);
        return;
      }
      err := Admit(p, pol, t);
    }

    method ReconcileValidating(p: Passes.Pass, pol: PolicySpec) returns (err: bool)
      modifies this
      ensures nodes == old(nodes)
      ensures var o := Passes.Validating(p, pol, old(Mem())); Did(p, o) && err == o.err
    {
      SetPhase(PhaseValidating);
      ghost var o := Passes.Resolve(p, pol, Mem());
      assert [] + o.events == o.events;
      assert old(phases) + [PhaseValidating] + o.phases == old(phases) + ([PhaseValidating] + o.phases);
      err := Resolve(p, pol);
      assert Did(p, Passes.After([], [PhaseValidating], o));
    }

    method ReconcileAwaitingApproval(p: Passes.Pass, pol: PolicySpec)
      modifies this
      ensures nodes == old(nodes) && Did(p, Passes.AwaitingApproval(p, pol, old(Mem())))
    {
      var g := if gate.None? then GateDrain else gate.value;
      var v := Judge(p, pol, g);
      match v {
        case Approved | NotRequired =>
          gate := None;
          Enter(p, Passes.NextPhaseAfterGate(g));
        case Rejected =>
          Cancel(p, RejectedAtGate(g));
        case Undecided =>
      }
    }

    /** One pending record per planned node, batch after batch. */
    method InitNodeStatuses(pl: Plan) returns (out: seq<NodeRec>)
      ensures out == Passes.InitNodes(pl.batches)
    {
      out := [];
      for bi := 0 to |pl.batches|
        invariant out == Passes.InitNodes(pl.batches[..bi])
      {
        var b := pl.batches[bi];
        assert pl.batches[..bi + 1][..bi] == pl.batches[..bi];
        ghost var before := out;
        for k := 0 to |b.nodes|
          invariant out == before + Passes.PendingRecs(b.nodes, b.index)[..k]
        {
          out := out + [NodeRec(b.nodes[k], NodePending, b.index, None, None, 0, 0, 0, 0, NoReason)];
        }
        assert Passes.PendingRecs(b.nodes, b.index)[..|b.nodes|] == Passes.PendingRecs(b.nodes, b.index);
      }
      assert pl.batches[..|pl.batches|] == pl.batches;
    }

    method Begin(p: Passes.Pass, pl: Plan)
      modifies this
      ensures Did(p, Passes.Begin(p, old(Mem()), pl))
    {
      if nodes.Length == 0 {
        var ns := InitNodeStatuses(pl);
        SetNodes(ns);
      }
      assert nodes[..] == if old(Mem()).nodes == [] then Passes.InitNodes(pl.batches) else old(Mem()).nodes;
      if startTime.None? {
        startTime := Some(p.now);
      }
      RecomputeSummary();
      Enter(p, PhaseExecuting);
    }

    method StartPlan(p: Passes.Pass, pl: Plan)
      modifies this
      ensures Did(p, Passes.StartPlan(p, old(Mem()), pl))
    {
      plan := Some(pl);
      if p.spec.mode == ModeAdvisory {
        UpdateStatus(p);
        return;
      }
      if pl.totalNodes == 0 {
        Complete(p);
        return;
      }
      if p.windows.None? {
        Fail(p);
        return;
      }
      if !p.windows.value {
        UpdateStatus(p);
        return;
      }
      Begin(p, pl);
    }

    method ReconcilePlanned(p: Passes.Pass, pol: PolicySpec) returns (err: bool)
      modifies this
      ensures var o := Passes.Planned(p, pol, old(Mem())); Did(p, o) && err == o.err
    {
      err := false;
      if p.target.None? {
        Fail(p);
        return;
      }
      if p.planError {
        err := true;
        return;
      }
      var pl := BuildPlan(p, pol, p.target.value);
      StartPlan(p, pl);
    }

    method ReconcilePaused(p: Passes.Pass)
      modifies this
      ensures nodes == old(nodes) && Did(p, Passes.Paused(p, old(Mem())))
    {
      if p.spec.pause {
        return;
      }
      Enter(p, Passes.ResumePhase(Mem()));
    }

    /** Puts every blocked node back to draining; retried counts them. */
    method RetryBlocked(now: int) returns (retried: nat)
      modifies nodes
      ensures nodes[..] == Passes.RetryAll(old(nodes[..]), now)
      ensures retried == CountIn(old(nodes[..]), {NodeBlocked})
    {
      ghost var ns := nodes[..];
      retried := 0;
      for i := 0 to nodes.Length
        invariant forall j | 0 <= j < i :: nodes[j] == Passes.RetryRec(ns[j], now)
        invariant forall j | i <= j < nodes.Length :: nodes[j] == ns[j]
        invariant retried == CountIn(ns[..i], {NodeBlocked})
      {
        assert ns[..i + 1][..i] == ns[..i];
        if nodes[i].phase == NodeBlocked {
          nodes[i] := nodes[i].(phase := NodeDraining, blockReason := NoReason, startTime := Some(now), endTime := None);
          retried := retried + 1;
        }
      }
      assert ns[..nodes.Length] == ns;
    }

    method ReconcileBlocked(p: Passes.Pass)
      modifies this, nodes
      ensures nodes == old(nodes) && Did(p, Passes.Blocked(p, old(Mem())))
    {
      if Passes.GlobalTimedOut(p, Mem()) {
        Fail(p);
        return;
      }
      if plan.Some? && nodes.Length > 0 {
        ghost var ns := nodes[..];
        var retried := RetryBlocked(p.now);
        if retried == 0 {
          CountBounds(ns, {NodeBlocked});
          assert nodes[..] == ns;
          return;
        }
        RecomputeSummary();
        Enter(p, PhaseExecuting);
        return;
      }
      Enter(p, PhaseValidating);
    }

    // ----- the pass -----

    method Dispatch(p: Passes.Pass, pol: PolicySpec) returns (err: bool)
      modifies this, nodes
      ensures var o := Passes.Dispatch(p, pol, old(Mem())); Did(p, o) && err == o.err
    {
      err := false;
      match phase {
        case PhasePending | PhaseValidating =>
          err := ReconcileValidating(p, pol);
        case PhaseAwaitingApproval =>
          ReconcileAwaitingApproval(p, pol);
        case PhasePlanned =>
          err := ReconcilePlanned(p, pol);
        case PhaseExecuting =>
          err := ReconcileExecuting(p, pol);
        case PhasePaused =>
          ReconcilePaused(p);
        case PhaseBlocked =>
          ReconcileBlocked(p);
        case _ =>
      }
    }

    /** The pass over the working copy. */
    method Process(p: Passes.Pass) returns (err: bool)
      modifies this, nodes
      ensures var o := Passes.Reconcile(p, old(Mem())); Did(p, o) && err == o.err
    {
      err := false;
      if phase == PhaseNone {
        Enter(p, INITIAL_PHASE);
        return;
      }
      if IsTerminal(phase) {
        return;
      }
      if p.spec.cancel {
        Cancel(p, CancelledByUser);
        return;
      }
      if p.spec.pause && Passes.CanPause(phase) {
        Enter(p, PhasePaused);
        return;
      }
      if p.policy.None? {
        Fail(p);
        return;
      }
      err := Dispatch(p, Passes.PolicyOf(p));
    }

    /** One pass: read the stored request, act on it, and leave the world the runs of Passes are made of. */
    method Reconcile(p: Passes.Pass) returns (err: bool)
      modifies this
      ensures World() == Passes.Next(old(World()), p)
      ensures err == Passes.Reconcile(p, old(stored)).err
      ensures phases == old(phases) + Passes.Reconcile(p, old(stored)).phases
    {
      Load();
      err := Process(p);
      ghost var o := Passes.Reconcile(p, old(stored));
      Passes.EffectsConcat({}, old(trace), o.events);
    }
  }

  predicate UncordonApproved(p: Passes.Pass, pol: PolicySpec) {
    || !Approval.RequiresGate(Policy.ApprovalFor(pol, p.spec), GateUncordon)
    || Passes.VerdictAt(p, pol, GateUncordon) == Approved
  }

  /** The nodes in flight over all unfinished requests but the one at self. */
  method GlobalDrainsInFlightExcept(requests: seq<Passes.World>, self: nat) returns (n: nat)
    requires self < |requests|
    ensures n == Caps.OthersLoad(requests, self)
  {
    n := 0;
    for i := 0 to |requests|
      invariant n == Caps.Total(requests[..i]) - (if self < i then Caps.Load(requests[self]) else 0)
    {
      assert requests[..i + 1][..i] == requests[..i];
      if i == self || IsTerminal(requests[i].status.phase) {
        continue;
      }
      n := n + CountIn(requests[i].status.nodes, IN_FLIGHT);
    }
    assert requests[..|requests|] == requests;
  }
}
