/** Cluster-wide guardrails. */
module Policy {
  import opened Api
  import Approval

  const DEFAULT_MAX_CONCURRENT_DRAINS := 1
  const DEFAULT_FAILURE_THRESHOLD := 1

  function WithDefaults(raw: PolicySpec): PolicySpec {
    raw.(
      maxConcurrentDrains := if raw.maxConcurrentDrains < 1 then DEFAULT_MAX_CONCURRENT_DRAINS else raw.maxConcurrentDrains,
      failureThreshold := if raw.failureThreshold < 1 then DEFAULT_FAILURE_THRESHOLD else raw.failureThreshold,
      defaultApproval := if raw.defaultApproval.ApprovalUnset? then ApprovalAuto else raw.defaultApproval)
  }

  function Concurrency(pol: PolicySpec, requested: int): int {
    var c := if requested < 1 then 1 else requested;
    if 0 < pol.maxConcurrentDrains < c then pol.maxConcurrentDrains else c
  }

  function ApprovalFor(pol: PolicySpec, spec: RequestSpec): ApprovalPolicy {
    Approval.EffectivePolicy(spec.approval, pol.defaultApproval)
  }

  predicate UnavailabilityCapped(pol: PolicySpec) {
    pol.maxUnavailableNodes > 0 || pol.maxUnavailablePercent > 0
  }

  /** Two's complement wrap-around of a 32-bit product. */
  function Wrap32(x: int): int {
    var m := x % 0x1_0000_0000;
    if m < 0x8000_0000 then m else m - 0x1_0000_0000
  }

  /** Integer division that truncates toward zero. */
  function TruncDiv(x: int, d: int): int
    requires d > 0
  {
    if x >= 0 then x / d else -((-x) / d)
  }

  /** How many nodes the caps ask for, as a real number of nodes: l satisfies each configured cap. */
  ghost predicate WithinCaps(pol: PolicySpec, total: int, l: int) {
    && l <= total
    && (pol.maxUnavailableNodes > 0 ==> l <= pol.maxUnavailableNodes)
    && (pol.maxUnavailablePercent > 0 ==> 100 * l <= total * pol.maxUnavailablePercent)
  }

  /** The cap by count: the whole scope when none is configured. */
  function CountCap(pol: PolicySpec, total: int): int {
    if 0 < pol.maxUnavailableNodes < total then pol.maxUnavailableNodes else total
  }

  /** The cap by percentage, from the product of scope and percentage, but at least one node. */
  function PercentCap(product: int): int {
    var share := TruncDiv(Wrap32(product), 100);
    if share < 1 then 1 else share
  }

  /** The most restrictive configured cap, but at least one node. */
  function MaxUnavailable(pol: PolicySpec, total: int): int {
    var byCount := CountCap(pol, total);
    var limit :=
      if pol.maxUnavailablePercent > 0 then
        var pct := PercentCap(total * pol.maxUnavailablePercent);
        if pct < byCount then pct else byCount
      else byCount;
    if limit < 1 then 1 else limit
  }

  /** As long as the percentage product fits 32 bits, the result is the largest number within every
    * configured cap, or 1 when no positive number is. */
  lemma MaxUnavailableIsLargest(pol: PolicySpec, total: nat)
    requires total * pol.maxUnavailablePercent < 0x8000_0000
    ensures var l := MaxUnavailable(pol, total);
            l >= 1 && IsLargest(pol, total, l)
  {
    var p := pol.maxUnavailablePercent;
    if p > 0 {
      var x := total * p;
      assert 0 <= x < 0x8000_0000;
      assert Wrap32(x) == x;
      var q := x / 100;
      assert 100 * q <= x < 100 * q + 100;
    }
  }

  /** The result is the most nodes the caps admit, or 1 when they admit none. */
  ghost predicate IsLargest(pol: PolicySpec, total: int, l: int) {
    if WithinCaps(pol, total, 1) then WithinCaps(pol, total, l) && !WithinCaps(pol, total, l + 1) else l == 1
  }

  /** The limit is right exactly when the product fits 32 bits, or the count cap is the smaller one all the same. */
  lemma MaxUnavailableIsLargestIff(pol: PolicySpec, total: nat)
    ensures var product := total * pol.maxUnavailablePercent;
            IsLargest(pol, total, MaxUnavailable(pol, total))
            <==> product < 0x8000_0000 || CountCap(pol, total) <= PercentCap(product)
  {
    var x := total * pol.maxUnavailablePercent;
    if x < 0x8000_0000 {
      MaxUnavailableIsLargest(pol, total);
    } else {
      assert pol.maxUnavailablePercent > 0 && total > 0;
      ShareAfterWrap(x);
      LimitAfterWrap(pol, total, x);
    }
  }

  /** A wrapped product makes the percentage cap too small, so the limit is right only if the count cap decides it. */
  lemma LimitAfterWrap(pol: PolicySpec, total: nat, x: int)
    requires pol.maxUnavailablePercent > 0 && total > 0 && x == total * pol.maxUnavailablePercent
    requires 1 <= PercentCap(x) && 100 * (PercentCap(x) + 1) <= x
    ensures IsLargest(pol, total, MaxUnavailable(pol, total)) <==> CountCap(pol, total) <= PercentCap(x)
  {
    var l := MaxUnavailable(pol, total);
    assert l == if PercentCap(x) < CountCap(pol, total) then PercentCap(x) else CountCap(pol, total);
    assert WithinCaps(pol, total, 1);
    assert 100 * l <= x;
  }

  /** A wrapped product never yields its true share. */
  lemma ShareAfterWrap(x: int)
    requires x >= 0x8000_0000
    ensures 1 <= PercentCap(x) && 100 * (PercentCap(x) + 1) <= x
  {
    var w := Wrap32(x);
    assert PercentCap(x) <= 21474836;
    if w >= 0 {
      assert x >= 0x1_0000_0000;
    }
  }

  /** A scope where it goes wrong: all of 42949673 nodes may be unavailable, and the limit is one. */
  lemma WrappedLimit()
    ensures var pol := PolicySpec(1, 0, 100, 1, ApprovalAuto);
            MaxUnavailable(pol, 42949673) == 1 && WithinCaps(pol, 42949673, 42949673)
  {
    assert Wrap32(42949673 * 100) == 4;
  }

  /** Whatever the product does, the limit leaves room for one node and never exceeds the scope. */
  lemma MaxUnavailableBounds(pol: PolicySpec, total: nat)
    ensures 1 <= MaxUnavailable(pol, total) <= if total < 1 then 1 else total
  {
  }
}
