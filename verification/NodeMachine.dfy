/** The phase machine of one node, and what the controller counts over all nodes. */
module NodeMachine {
  import opened Api

  // ----- answers of the cluster -----

  datatype NodeLookup = LookupError | NodeNotFound | NodeFound(mcoManaged: bool, kubeletVersion: string)

  /** How the cluster answers the calls a pass makes for one node. None is an error. */
  datatype NodeAnswer = NodeAnswer(
    lookup: NodeLookup,
    cordonOk: bool,
    evict: Option<EvictResult>,
    uncordonOk: bool,
    ready: Option<int>,
    replace: ReplaceResult,
    gone: Option<bool>)

  const NO_ANSWER := NodeAnswer(LookupError, false, None, false, None, ReplaceError, None)

  // ----- node phases -----

  predicate IsNodeTerminal(p: NodePhase) {
    p in {NodeCompleted, NodeBlocked, NodeFailed, NodeSkipped}
  }

  const IN_FLIGHT := {NodeCordoning, NodeDraining, NodePostCheck, NodeUncordoning, NodeReplacing, NodeAwaitingReplacement}

  predicate ShouldRelease(p: NodePhase) {
    p in {NodeCordoning, NodeDraining, NodePostCheck, NodeUncordoning, NodeBlocked}
  }

  /** How many node records are in one of the phases. */
  function CountIn(ns: seq<NodeRec>, phases: set<NodePhase>): nat {
    if ns == [] then 0
    else CountIn(ns[..|ns| - 1], phases) + (if ns[|ns| - 1].phase in phases then 1 else 0)
  }

  /** The lowest batch with a node that is not terminal, or -1. */
  function CurrentBatch(ns: seq<NodeRec>): int {
    if ns == [] then -1
    else
      var best := CurrentBatch(ns[..|ns| - 1]);
      var last := ns[|ns| - 1];
      if IsNodeTerminal(last.phase) then best
      else if best == -1 || last.batch < best then last.batch
      else best
  }

  function Recount(ns: seq<NodeRec>): Summary {
    Summary(|ns|, CountIn(ns, {NodePending}), CountIn(ns, IN_FLIGHT), CountIn(ns, {NodeCompleted}),
            CountIn(ns, {NodeBlocked}), CountIn(ns, {NodeFailed}), CountIn(ns, {NodeSkipped}))
  }

  /** A node is pending, in flight or terminal, and only one of these. */
  lemma InFlightOrNot(p: NodePhase)
    ensures p in IN_FLIGHT <==> p != NodePending && !IsNodeTerminal(p)
  {
    match p
    case NodePending =>
    case NodeCordoning =>
    case NodeDraining =>
    case NodePostCheck =>
    case NodeUncordoning =>
    case NodeReplacing =>
    case NodeAwaitingReplacement =>
    case NodeCompleted =>
    case NodeBlocked =>
    case NodeFailed =>
    case NodeSkipped =>
  }

  /** Every record counts in exactly one part, so the parts sum to the total. */
  lemma {:induction false} SummaryAddsUp(ns: seq<NodeRec>)
    ensures var s := Recount(ns);
            s.total == s.pending + s.inProgress + s.completed + s.blocked + s.failed + s.skipped
  {
    if ns != [] {
      SummaryAddsUp(ns[..|ns| - 1]);
      InFlightOrNot(ns[|ns| - 1].phase);
    }
  }

  /** One more record adds one to the total and to the part of its phase. */
  lemma {:induction false} RecountOne(ns: seq<NodeRec>, r: NodeRec)
    ensures forall phases :: CountIn(ns + [r], phases) == CountIn(ns, phases) + (if r.phase in phases then 1 else 0)
  {
    assert (ns + [r])[..|ns|] == ns;
  }

  lemma {:induction false} CountBounds(ns: seq<NodeRec>, phases: set<NodePhase>)
    ensures CountIn(ns, phases) <= |ns|
    ensures CountIn(ns, phases) == 0 <==> forall i | 0 <= i < |ns| :: ns[i].phase !in phases
    ensures CountIn(ns, phases) == |ns| <==> forall i | 0 <= i < |ns| :: ns[i].phase in phases
  {
    if ns != [] {
      CountBounds(ns[..|ns| - 1], phases);
    }
  }

  lemma {:induction false} CountUpdate(ns: seq<NodeRec>, k: nat, r: NodeRec, phases: set<NodePhase>)
    requires k < |ns|
    ensures CountIn(ns[k := r], phases)
         == CountIn(ns, phases) - (if ns[k].phase in phases then 1 else 0) + (if r.phase in phases then 1 else 0)
  {
    var n := |ns| - 1;
    if k == n {
      assert ns[k := r][..n] == ns[..n];
    } else {
      assert ns[k := r][..n] == ns[..n][k := r];
      CountUpdate(ns[..n], k, r, phases);
    }
  }

  lemma {:induction false} CountUnion(ns: seq<NodeRec>, a: set<NodePhase>, b: set<NodePhase>)
    requires a !! b
    ensures CountIn(ns, a + b) == CountIn(ns, a) + CountIn(ns, b)
  {
    if ns != [] {
      CountUnion(ns[..|ns| - 1], a, b);
    }
  }

  /** CurrentBatch is the least batch number among the nodes that are not terminal. */
  lemma {:induction false} CurrentBatchIsLeast(ns: seq<NodeRec>)
    requires forall i | 0 <= i < |ns| :: ns[i].batch >= 0
    ensures CurrentBatch(ns) == -1 <==> forall i | 0 <= i < |ns| :: IsNodeTerminal(ns[i].phase)
    ensures forall i | 0 <= i < |ns| && !IsNodeTerminal(ns[i].phase) :: 0 <= CurrentBatch(ns) <= ns[i].batch
    ensures CurrentBatch(ns) != -1 ==> exists i :: 0 <= i < |ns| && !IsNodeTerminal(ns[i].phase) && ns[i].batch == CurrentBatch(ns)
    ensures CurrentBatch(ns) >= -1
  {
    if ns != [] {
      var n := |ns| - 1;
      CurrentBatchIsLeast(ns[..n]);
      if CurrentBatch(ns) != -1 {
        if CurrentBatch(ns) == CurrentBatch(ns[..n]) {
          var i :| 0 <= i < n && !IsNodeTerminal(ns[..n][i].phase) && ns[..n][i].batch == CurrentBatch(ns[..n]);
          assert !IsNodeTerminal(ns[i].phase) && ns[i].batch == CurrentBatch(ns);
        } else {
          assert !IsNodeTerminal(ns[n].phase) && ns[n].batch == CurrentBatch(ns);
        }
      }
    }
  }

  // ----- one step -----

  /** What a step depends on besides the node itself. held: nodes must wait for the uncordon gate. */
  datatype StepContext = StepContext(
    spec: RequestSpec,
    concurrency: int,
    windowOpen: bool,
    held: bool,
    now: int,
    drainTimeout: int,
    replacementTimeout: int)

  datatype StepOut = StepOut(rec: NodeRec, inFlight: int, events: seq<Event>, err: bool)

  function SetTerminal(r: NodeRec, phase: NodePhase, reason: BlockReason, now: int): NodeRec {
    r.(phase := phase, blockReason := reason, endTime := if r.endTime.None? then Some(now) else r.endTime)
  }

  predicate TimedOut(since: Option<int>, now: int, timeout: int) {
    since.Some? && now - since.value > timeout
  }

  function StepPending(c: StepContext, a: NodeAnswer, r: NodeRec, inFlight: int): StepOut {
    if inFlight >= c.concurrency || !c.windowOpen then StepOut(r, inFlight, [], false)
    else
      match a.lookup
      case LookupError => StepOut(r, inFlight, [], true)
      case NodeNotFound => StepOut(SetTerminal(r, NodeSkipped, NoReason, c.now), inFlight, [], false)
      case NodeFound(mco, version) =>
        if mco || (c.spec.TargetVersion() != "" && version == c.spec.TargetVersion())
        then StepOut(SetTerminal(r, NodeSkipped, NoReason, c.now), inFlight, [], false)
        else StepOut(r.(startTime := Some(c.now), endTime := None, phase := NodeCordoning), inFlight + 1, [], false)
  }

  function StepDraining(c: StepContext, a: NodeAnswer, r: NodeRec, inFlight: int): StepOut {
    if a.evict.None? then StepOut(r, inFlight, [EvictRound(r.node, None)], true)
    else
      var res := a.evict.value;
      var e := [EvictRound(r.node, Some(res.blocking))];
      var counted := r.(
        totalPods := if r.totalPods == 0 && res.blocking > 0 then res.blocking else r.totalPods,
        evictedPods := r.evictedPods + res.evicted,
        remainingPods := res.blocking);
      if res.blocking == 0 then StepOut(counted.(phase := NodePostCheck), inFlight, e, false)
      else if TimedOut(r.startTime, c.now, c.drainTimeout) then
        var reason := if res.reason == NoReason then BlockTimeout else res.reason;
        StepOut(SetTerminal(counted, NodeBlocked, reason, c.now), inFlight - 1, e, false)
      else StepOut(counted, inFlight, e, false)
  }

  function StepPostCheck(c: StepContext, r: NodeRec, inFlight: int): StepOut {
    if c.spec.ReplaceNodes() then StepOut(r.(phase := NodeReplacing), inFlight, [], false)
    else if !c.spec.uncordonAfter then StepOut(SetTerminal(r, NodeCompleted, NoReason, c.now), inFlight - 1, [], false)
    else if c.held then StepOut(r, inFlight, [], false)
    else StepOut(r.(phase := NodeUncordoning), inFlight, [], false)
  }

  function StepReplacing(c: StepContext, a: NodeAnswer, r: NodeRec, inFlight: int): StepOut {
    if c.spec.TargetVersion() != "" && a.ready.None? then StepOut(r, inFlight, [], true)
    else
      var based := if c.spec.TargetVersion() != "" then r.(baseline := a.ready.value) else r;
      var e := [ReplaceCall(r.node, a.replace)];
      match a.replace
      case ReplaceError => StepOut(based, inFlight, e, true)
      case NoMachine => StepOut(SetTerminal(based, NodeFailed, BlockMachineNotFound, c.now), inFlight - 1, e, false)
      case MachineDeleted => StepOut(based.(phase := NodeAwaitingReplacement), inFlight, e, false)
  }

  function WaitForReplacement(c: StepContext, r: NodeRec, inFlight: int, e: seq<Event>): StepOut {
    if TimedOut(r.startTime, c.now, c.drainTimeout + c.replacementTimeout)
    then StepOut(SetTerminal(r, NodeBlocked, BlockReplaceTimeout, c.now), inFlight - 1, e, false)
    else StepOut(r, inFlight, e, false)
  }

  function StepAwaitingReplacement(c: StepContext, a: NodeAnswer, r: NodeRec, inFlight: int): StepOut {
    if a.gone.None? then StepOut(r, inFlight, [], true)
    else if !a.gone.value then WaitForReplacement(c, r, inFlight, [])
    else
      var e := [GoneSeen(r.node)];
      if c.spec.TargetVersion() != "" && a.ready.None? then StepOut(r, inFlight, e, true)
      else if c.spec.TargetVersion() != "" && a.ready.value <= r.baseline then WaitForReplacement(c, r, inFlight, e)
      else StepOut(SetTerminal(r, NodeCompleted, NoReason, c.now), inFlight - 1, e, false)
  }

  /** One step of one node. */
  function Step(c: StepContext, a: NodeAnswer, r: NodeRec, inFlight: int): StepOut {
    match r.phase
    case NodePending => StepPending(c, a, r, inFlight)
    case NodeCordoning =>
      StepOut(if a.cordonOk then r.(phase := NodeDraining) else r, inFlight, [CordonCall(r.node, a.cordonOk)], !a.cordonOk)
    case NodeDraining => StepDraining(c, a, r, inFlight)
    case NodePostCheck => StepPostCheck(c, r, inFlight)
    case NodeUncordoning =>
      var e := [UncordonCall(r.node, a.uncordonOk, false)];
      if a.uncordonOk then StepOut(SetTerminal(r, NodeCompleted, NoReason, c.now), inFlight - 1, e, false)
      else StepOut(r, inFlight, e, true)
    case NodeReplacing => StepReplacing(c, a, r, inFlight)
    case NodeAwaitingReplacement => StepAwaitingReplacement(c, a, r, inFlight)
    case _ => StepOut(r, inFlight, [], false)
  }

  // ----- all nodes of a batch, in order -----

  function AnswerAt(answers: seq<NodeAnswer>, i: nat): NodeAnswer {
    if i < |answers| then answers[i] else NO_ANSWER
  }

  datatype LoopOut = LoopOut(nodes: seq<NodeRec>, inFlight: int, events: seq<Event>, err: bool)

  /** The records after the first k have been visited; the first error ends the visit. */
  function StepTo(c: StepContext, answers: seq<NodeAnswer>, batch: int, ns: seq<NodeRec>, inFlight: int, k: nat): (o: LoopOut)
    requires k <= |ns|
    ensures |o.nodes| == |ns|
    ensures forall i | k <= i < |ns| :: o.nodes[i] == ns[i]
  {
    if k == 0 then LoopOut(ns, inFlight, [], false)
    else
      var o := StepTo(c, answers, batch, ns, inFlight, k - 1);
      var r := ns[k - 1];
      if o.err || r.batch != batch || IsNodeTerminal(r.phase) then o
      else
        var s := Step(c, AnswerAt(answers, k - 1), r, o.inFlight);
        LoopOut(o.nodes[k - 1 := s.rec], s.inFlight, o.events + s.events, s.err)
  }

  lemma {:induction false} StepToStops(c: StepContext, answers: seq<NodeAnswer>, batch: int, ns: seq<NodeRec>, inFlight: int, k: nat)
    requires k <= |ns| && StepTo(c, answers, batch, ns, inFlight, k).err
    ensures StepTo(c, answers, batch, ns, inFlight, |ns|) == StepTo(c, answers, batch, ns, inFlight, k)
    decreases |ns| - k
  {
    if k < |ns| {
      StepToStops(c, answers, batch, ns, inFlight, k + 1);
    }
  }

  /** The record at i is either untouched or the result of one step of the record that was there. */
  ghost predicate Stepped(c: StepContext, answers: seq<NodeAnswer>, batch: int, r: NodeRec, r': NodeRec, i: nat) {
    r' == r || (r.batch == batch && !IsNodeTerminal(r.phase)
                && exists fl :: r' == Step(c, AnswerAt(answers, i), r, fl).rec)
  }

  lemma {:induction false} SteppedOnce(c: StepContext, answers: seq<NodeAnswer>, batch: int, ns: seq<NodeRec>, inFlight: int, k: nat)
    requires k <= |ns|
    ensures forall i | 0 <= i < |ns| :: Stepped(c, answers, batch, ns[i], StepTo(c, answers, batch, ns, inFlight, k).nodes[i], i)
  {
    if k > 0 {
      SteppedOnce(c, answers, batch, ns, inFlight, k - 1);
    }
  }
}
