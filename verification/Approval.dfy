/** The manual approval gates. */
module Approval {
  import opened Api

  function EffectivePolicy(request: ApprovalPolicy, fallback: ApprovalPolicy): ApprovalPolicy {
    if !request.ApprovalUnset? then request
    else if !fallback.ApprovalUnset? then fallback
    else ApprovalAuto
  }

  predicate RequiresGate(policy: ApprovalPolicy, gate: Gate) {
    match gate
    case GateDrain => policy.ApprovalManualBeforeDrain? || policy.ApprovalManualBeforeBoth?
    case GateUncordon => policy.ApprovalManualBeforeUncordon? || policy.ApprovalManualBeforeBoth?
  }

  /** a was recorded strictly before b; a missing time is the oldest. */
  predicate Older(a: Option<int>, b: Option<int>) {
    b.Some? && (a.None? || a.value < b.value)
  }

  /** The position of the decision in force for a gate among the first k decisions. */
  function Latest(gates: seq<GateDecision>, gate: Gate, k: nat): Option<nat>
    requires k <= |gates|
  {
    if k == 0 then None
    else
      var found := Latest(gates, gate, k - 1);
      if gates[k - 1].gate == gate && (found.None? || (found.value < k - 1 && Older(gates[found.value].time, gates[k - 1].time)))
      then Some(k - 1)
      else found
  }

  /** d is a decision for the gate whose time no other exceeds, and the first such. One without a time is only in force
    * if none has one. */
  ghost predicate InForce(gates: seq<GateDecision>, gate: Gate, d: nat) {
    && d < |gates|
    && gates[d].gate == gate
    && (forall j | 0 <= j < |gates| && gates[j].gate == gate && gates[j].time.Some? ::
          gates[d].time.Some? && gates[j].time.value <= gates[d].time.value)
    && (forall j | 0 <= j < d && gates[j].gate == gate ::
          gates[d].time.Some? && (gates[j].time.None? || gates[j].time.value < gates[d].time.value))
  }

  /** The policies that ask for the gate. */
  ghost function Asking(gate: Gate): set<ApprovalPolicy> {
    match gate
    case GateDrain => {ApprovalManualBeforeDrain, ApprovalManualBeforeBoth}
    case GateUncordon => {ApprovalManualBeforeUncordon, ApprovalManualBeforeBoth}
  }

  /** The decision in force for the gate is this one. */
  ghost predicate Decided(gates: seq<GateDecision>, gate: Gate, decision: Decision) {
    exists d: nat :: InForce(gates, gate, d) && gates[d].decision == decision
  }

  lemma {:induction false} LatestFacts(gates: seq<GateDecision>, gate: Gate, k: nat)
    requires k <= |gates|
    ensures Latest(gates, gate, k).None? <==> forall j | 0 <= j < k :: gates[j].gate != gate
    ensures Latest(gates, gate, k).Some? ==>
              var d := Latest(gates, gate, k).value;
              && d < k && gates[d].gate == gate
              && (forall j | 0 <= j < k && gates[j].gate == gate :: !Older(gates[d].time, gates[j].time))
              && (forall j | 0 <= j < d && gates[j].gate == gate :: Older(gates[j].time, gates[d].time))
  {
    if k > 0 {
      LatestFacts(gates, gate, k - 1);
    }
  }

  /** The decision in force is unique, so the conditions of InForce define it. */
  lemma {:induction false} InForceIsLatest(gates: seq<GateDecision>, gate: Gate, d: nat)
    ensures InForce(gates, gate, d) <==> Latest(gates, gate, |gates|) == Some(d)
  {
    LatestFacts(gates, gate, |gates|);
  }

  /** The newest decision recorded for a gate: a missing time counts as oldest, the first of equals wins. */
  method DecisionFor(gates: seq<GateDecision>, gate: Gate) returns (found: Option<nat>)
    ensures found.None? <==> forall j | 0 <= j < |gates| :: gates[j].gate != gate
    ensures found.Some? ==> InForce(gates, gate, found.value)
  {
    found := None;
    for i := 0 to |gates|
      invariant found == Latest(gates, gate, i)
      invariant found.Some? ==> found.value < i
    {
      var g := gates[i];
      if g.gate != gate {
        continue;
      }
      if found.None? {
        found := Some(i);
        continue;
      }
      if Older(gates[found.value].time, g.time) {
        found := Some(i);
      }
    }
    LatestFacts(gates, gate, |gates|);
  }

  function Evaluate(policy: ApprovalPolicy, gates: seq<GateDecision>, gate: Gate): Verdict {
    if !RequiresGate(policy, gate) then NotRequired
    else
      var found := Latest(gates, gate, |gates|);
      if found.None? || found.value >= |gates| then Undecided
      else
        match gates[found.value].decision
        case DecisionApproved => Approved
        case DecisionRejected => Rejected
        case DecisionOther => Undecided
  }

  /** A gate is not required exactly under the policies that do not ask for it; where it is asked for, it is open exactly
    * when the decision in force approves it and shut for good exactly when that rejects it. */
  lemma VerdictMeaning(policy: ApprovalPolicy, gates: seq<GateDecision>, gate: Gate)
    ensures Evaluate(policy, gates, gate) == NotRequired <==> policy !in Asking(gate)
    ensures Evaluate(policy, gates, gate) == Approved <==> policy in Asking(gate) && Decided(gates, gate, DecisionApproved)
    ensures Evaluate(policy, gates, gate) == Rejected <==> policy in Asking(gate) && Decided(gates, gate, DecisionRejected)
  {
    LatestFacts(gates, gate, |gates|);
    forall d: nat
      ensures InForce(gates, gate, d) <==> Latest(gates, gate, |gates|) == Some(d)
    {
      InForceIsLatest(gates, gate, d);
    }
  }

  /** Gate by gate: which policies do without it. */
  lemma NotRequiredIff(policy: ApprovalPolicy, gates: seq<GateDecision>)
    ensures Evaluate(policy, gates, GateDrain) == NotRequired
            <==> policy != ApprovalManualBeforeDrain && policy != ApprovalManualBeforeBoth
    ensures Evaluate(policy, gates, GateUncordon) == NotRequired
            <==> policy != ApprovalManualBeforeUncordon && policy != ApprovalManualBeforeBoth
  {
    VerdictMeaning(policy, gates, GateDrain);
    VerdictMeaning(policy, gates, GateUncordon);
  }

  /** Whoever records a decision with a later time than all others overrides them. */
  lemma NewestDecisionWins(policy: ApprovalPolicy, gates: seq<GateDecision>, d: GateDecision)
    requires policy in Asking(d.gate) && d.time.Some?
    requires forall j | 0 <= j < |gates| && gates[j].gate == d.gate && gates[j].time.Some? :: gates[j].time.value < d.time.value
    ensures Evaluate(policy, gates + [d], d.gate) ==
            match d.decision case DecisionApproved => Approved case DecisionRejected => Rejected case DecisionOther => Undecided
  {
    assert InForce(gates + [d], d.gate, |gates|);
    InForceIsLatest(gates + [d], d.gate, |gates|);
  }
}
