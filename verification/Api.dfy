/** The data the controller reads and writes: the request, its status, the policy and the
  * events a pass leaves behind on the cluster. */
module Api {
  datatype Option<+T> = None | Some(value: T)

  datatype Phase =
    | PhaseNone  // the empty phase of a request nobody has looked at yet
    | PhasePending
    | PhaseValidating
    | PhaseAwaitingApproval
    | PhasePlanned
    | PhaseExecuting
    | PhasePaused
    | PhaseBlocked
    | PhaseCompleted
    | PhaseFailed
    | PhaseCancelled

  datatype NodePhase =
    | NodePending
    | NodeCordoning
    | NodeDraining
    | NodePostCheck
    | NodeUncordoning
    | NodeReplacing
    | NodeAwaitingReplacement
    | NodeCompleted
    | NodeBlocked
    | NodeFailed
    | NodeSkipped

  datatype Mode = ModeDryRun | ModeAdvisory | ModeExecute

  datatype Strategy = StrategyUnset | StrategySerial | StrategyBatched | StrategyByZone | StrategyByPool

  datatype ApprovalPolicy =
    | ApprovalUnset
    | ApprovalAuto
    | ApprovalManualBeforeDrain
    | ApprovalManualBeforeUncordon
    | ApprovalManualBeforeBoth

  datatype Gate = GateDrain | GateUncordon

  /** DecisionOther stands for any unrecognised or empty decision value. */
  datatype Decision = DecisionApproved | DecisionRejected | DecisionOther

  datatype GateDecision = GateDecision(gate: Gate, decision: Decision, time: Option<int>)

  /** The outcome of evaluating a gate. */
  datatype Verdict = NotRequired | Undecided | Approved | Rejected

  datatype UpgradeStrategy = UpgradeUnset | UpgradeReplaceNode | UpgradeOther

  datatype UpgradeSpec = UpgradeSpec(strategy: UpgradeStrategy, targetVersion: string, replacementTimeout: int)

  /** The part of the request's spec that steers the controller. Users may edit it between passes. */
  datatype RequestSpec = RequestSpec(
    mode: Mode,
    strategy: Strategy,
    maxConcurrent: int,
    batchSize: int,
    drainTimeout: int,
    globalTimeout: int,
    uncordonAfter: bool,
    approval: ApprovalPolicy,
    gates: seq<GateDecision>,
    pause: bool,
    cancel: bool,
    upgrade: Option<UpgradeSpec>)
  {
    predicate ReplaceNodes() {
      upgrade.Some? && (upgrade.value.strategy.UpgradeUnset? || upgrade.value.strategy.UpgradeReplaceNode?)
    }

    /** The version a node must report, or "" when none is set. */
    function TargetVersion(): string {
      if upgrade.None? then "" else upgrade.value.targetVersion
    }
  }

  datatype PolicySpec = PolicySpec(
    maxConcurrentDrains: int,
    maxUnavailableNodes: int,
    maxUnavailablePercent: int,
    failureThreshold: int,
    defaultApproval: ApprovalPolicy)

  datatype Batch = Batch(index: int, group: string, nodes: seq<string>)

  datatype Plan = Plan(strategy: Strategy, batches: seq<Batch>, totalNodes: nat, maxConcurrent: int)

  datatype BlockReason =
    | NoReason
    | BlockPDB
    | BlockStuckTermination
    | BlockEvictionError
    | BlockTimeout
    | BlockMachineNotFound
    | BlockReplaceTimeout

  /** Progress of one node. */
  datatype NodeRec = NodeRec(
    node: string,
    phase: NodePhase,
    batch: int,
    startTime: Option<int>,
    endTime: Option<int>,
    totalPods: nat,
    evictedPods: nat,
    remainingPods: nat,
    baseline: int,
    blockReason: BlockReason)

  datatype Summary = Summary(
    total: nat, pending: nat, inProgress: nat, completed: nat, blocked: nat, failed: nat, skipped: nat)

  /** Why a request stopped: the part of the final status message that the properties need. */
  datatype Ending = Running | Finished | Aborted | CancelledByUser | RejectedAtGate(gate: Gate)

  datatype Status = Status(
    phase: Phase,
    gate: Option<Gate>,
    plan: Option<Plan>,
    nodes: seq<NodeRec>,
    summary: Summary,
    startTime: Option<int>,
    completionTime: Option<int>,
    ending: Ending)

  const NO_SUMMARY := Summary(0, 0, 0, 0, 0, 0, 0)

  /** A request as its creator submits it. */
  const NEW_STATUS := Status(PhaseNone, None, None, [], NO_SUMMARY, None, None, Running)

  /** One eviction round as the executor reports it. */
  datatype EvictResult = EvictResult(blocking: nat, evictable: nat, evicted: nat, reason: BlockReason)

  /** A node of the resolved target. */
  datatype TargetNode = TargetNode(name: string, unschedulable: bool, zone: string, pool: Option<string>)

  datatype Target = Target(nodes: seq<TargetNode>, missing: seq<string>, universe: seq<TargetNode>)

  datatype ReplaceResult = ReplaceError | NoMachine | MachineDeleted

  /** What a pass does to the cluster, and which gates it judges, in order. A call whose answer
    * is an error (ok == false) may still have taken effect. */
  datatype Event =
    | CordonCall(node: string, ok: bool)
    | EvictRound(node: string, blocking: Option<nat>)
    | UncordonCall(node: string, ok: bool, abort: bool)
    | ReplaceCall(node: string, result: ReplaceResult)
    | GoneSeen(node: string)
    | Judged(gate: Gate, verdict: Verdict)
  {
    predicate TouchesNode() {
      CordonCall? || EvictRound? || UncordonCall? || ReplaceCall?
    }
  }
}
