/** The static guardrails checked before any node is touched. */
module Preflight {
  import opened Api
  import Policy
  import Window

  function CountCordoned(nodes: seq<TargetNode>): nat {
    if nodes == [] then 0
    else CountCordoned(nodes[..|nodes| - 1]) + (if nodes[|nodes| - 1].unschedulable then 1 else 0)
  }

  /** The scope the caps are measured on. */
  function Scope(t: Target): seq<TargetNode> {
    if t.universe == [] then t.nodes else t.universe
  }

  /** How many nodes the request itself may make unavailable at once. */
  function Peak(pol: PolicySpec, spec: RequestSpec, t: Target): int {
    var willAdd := |t.nodes| - CountCordoned(t.nodes);
    var c := Policy.Concurrency(pol, spec.maxConcurrent);
    if spec.uncordonAfter && c < willAdd then c else willAdd
  }

  /** The verdict of the unavailability guardrail. */
  predicate TooManyUnavailable(pol: PolicySpec, spec: RequestSpec, t: Target) {
    && Policy.UnavailabilityCapped(pol)
    && CountCordoned(Scope(t)) + Peak(pol, spec, t) > Policy.MaxUnavailable(pol, |Scope(t)|)
  }

  method CheckUnavailability(pol: PolicySpec, spec: RequestSpec, t: Target) returns (fails: bool)
    ensures fails <==> TooManyUnavailable(pol, spec, t)
  {
    if !Policy.UnavailabilityCapped(pol) {
      return false;
    }
    var universe := t.universe;
    if |universe| == 0 {
      universe := t.nodes;
    }
    var already := 0;
    for i := 0 to |universe|
      invariant already == CountCordoned(universe[..i])
    {
      assert universe[..i + 1][..i] == universe[..i];
      if universe[i].unschedulable {
        already := already + 1;
      }
    }
    assert universe[..|universe|] == universe;
    var willAdd := 0;
    for i := 0 to |t.nodes|
      invariant willAdd == i - CountCordoned(t.nodes[..i])
    {
      assert t.nodes[..i + 1][..i] == t.nodes[..i];
      if !t.nodes[i].unschedulable {
        willAdd := willAdd + 1;
      }
    }
    assert t.nodes[..|t.nodes|] == t.nodes;
    var peak := willAdd;
    if spec.uncordonAfter {
      var concurrency := Policy.Concurrency(pol, spec.maxConcurrent);
      if concurrency < peak {
        peak := concurrency;
      }
    }
    var limit := Policy.MaxUnavailable(pol, |universe|);
    return already + peak > limit;
  }

  /** The request may act: now is in its own window, if it has one, and in one of the policy's, if there are any.
    * The own window is looked at first, then the policy's one by one; the first that cannot be evaluated before the
    * answer is known makes it an error. */
  method WindowsOpen(own: Option<Window.CronWindow>, allowed: seq<Window.CronWindow>,
                     zones: string -> Option<Window.Calendar>, now: int)
    returns (r: Window.Result<bool>)
    ensures own.Some? && !Window.Usable(own.value, zones) ==> r == Window.Err
    ensures own.Some? && Window.Usable(own.value, zones) && !Window.WindowOpen(own.value, zones, now) ==> r == Window.Ok(false)
    ensures own.None? || (Window.Usable(own.value, zones) && Window.WindowOpen(own.value, zones, now)) ==>
              Window.Decides(allowed, zones, now, r)
  {
    if own.Some? {
      var ok := Window.IsOpen(own.value, zones, now);
      if ok.Err? {
        return Window.Err;
      }
      if !ok.value {
        return Window.Ok(false);
      }
    }
    if |allowed| > 0 {
      var ok := Window.AnyOpen(allowed, zones, now);
      if ok.Err? {
        return Window.Err;
      }
      if !ok.value {
        return Window.Ok(false);
      }
    }
    return Window.Ok(true);
  }
}
