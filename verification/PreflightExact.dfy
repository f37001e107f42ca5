/** What the unavailability check promises of the runs of a request that uncordons, and what it does not. */
module PreflightExact {
  import opened Api
  import opened Passes
  import opened BlockedRuns
  import opened PreflightSound
  import Caps
  import Evictions
  import Gates
  import Journal
  import Policy
  import Preflight

  // ----- exact counts over distinct names -----

  lemma {:induction false} CordonedNames(ts: seq<TargetNode>, unschedulable: set<string>)
    requires Evictions.DistinctNames(ts)
    requires forall i | 0 <= i < |ts| :: ts[i].unschedulable <==> ts[i].name in unschedulable
    ensures |unschedulable * TargetNames(ts)| == Preflight.CountCordoned(ts)
    ensures |TargetNames(ts) - unschedulable| == |ts| - Preflight.CountCordoned(ts)
  {
    if ts == [] {
      assert unschedulable * TargetNames(ts) == {} && TargetNames(ts) - unschedulable == {};
    } else {
      var n := |ts| - 1;
      CordonedNames(ts[..n], unschedulable);
      LastName(ts);
      OneMoreName(TargetNames(ts[..n]), ts[n].name, unschedulable);
    }
  }

  lemma OneMoreName(names: set<string>, x: string, unschedulable: set<string>)
    requires x !in names
    ensures |unschedulable * (names + {x})| == |unschedulable * names| + (if x in unschedulable then 1 else 0)
    ensures |names + {x} - unschedulable| == |names - unschedulable| + (if x in unschedulable then 0 else 1)
  {
    if x in unschedulable {
      assert unschedulable * (names + {x}) == unschedulable * names + {x};
      assert names + {x} - unschedulable == names - unschedulable;
    } else {
      assert unschedulable * (names + {x}) == unschedulable * names;
      assert names + {x} - unschedulable == names - unschedulable + {x};
    }
  }

  lemma LastName(ts: seq<TargetNode>)
    requires ts != [] && Evictions.DistinctNames(ts)
    ensures TargetNames(ts) == TargetNames(ts[..|ts| - 1]) + {ts[|ts| - 1].name}
    ensures ts[|ts| - 1].name !in TargetNames(ts[..|ts| - 1])
  {
    var n := |ts| - 1;
    forall x | x in TargetNames(ts) ensures x in TargetNames(ts[..n]) + {ts[n].name} {
      var i :| 0 <= i < |ts| && ts[i].name == x;
      if i < n {
        assert ts[..n][i] == ts[i];
      }
    }
    assert forall i | 0 <= i < n :: ts[..n][i] == ts[i];
  }

  /** Resolved targets of nodes with distinct names, all of them in the scope. */
  ghost predicate Proper(t: Target) {
    && Evictions.DistinctNames(t.nodes) && Evictions.DistinctNames(Preflight.Scope(t))
    && TargetNames(t.nodes) <= TargetNames(Preflight.Scope(t))
  }

  /** With the whole target cordoned the scope has as many unschedulable nodes as the check without uncordon counts. */
  lemma WholeTargetDown(t: Target, unschedulable: set<string>, cordoned: set<string>)
    requires Proper(t) && Sees(t, unschedulable) && TargetNames(t.nodes) <= cordoned
    ensures |Unavailable(t, unschedulable, cordoned)|
         >= Preflight.CountCordoned(Preflight.Scope(t)) + |t.nodes| - Preflight.CountCordoned(t.nodes)
  {
    var scope := Preflight.Scope(t);
    var before, added := unschedulable * TargetNames(scope), TargetNames(t.nodes) - unschedulable;
    CordonedNames(scope, unschedulable);
    CordonedNames(t.nodes, unschedulable);
    assert before !! added;
    SubsetSize(before + added, Unavailable(t, unschedulable, cordoned));
  }

  // ----- the limit -----

  /** The terms of the request if it did not return its nodes. */
  function NotReturning(spec: RequestSpec): RequestSpec {
    spec.(uncordonAfter := false)
  }

  /** The same terms with the timeouts of the other spec. */
  function Retimed(spec: RequestSpec, other: RequestSpec): RequestSpec {
    spec.(drainTimeout := other.drainTimeout, globalTimeout := other.globalTimeout)
  }

  /** Every pass reads this spec - but for the timeouts, if these may be edited - and this policy and target if it reads any. */
  ghost predicate Reads(ps: seq<Pass>, raw: PolicySpec, spec: RequestSpec, t: Target, edits: bool) {
    forall i | 0 <= i < |ps| ::
      && ps[i].spec == (if edits then Retimed(spec, ps[i].spec) else spec)
      && (ps[i].policy.Some? ==> ps[i].policy == Some(raw))
      && (ps[i].target.Some? ==> ps[i].target == Some(t))
  }

  /** The scope stays within the limit at every moment of every run of the request: the clock, the windows, the answers
    * of the cluster, the other requests and the fate of the status writes may be any. */
  ghost predicate AlwaysWithinLimit(raw: PolicySpec, spec: RequestSpec, t: Target, edits: bool, unschedulable: set<string>) {
    forall ps: seq<Pass> | Reads(ps, raw, spec, t, edits) :: |Unavailable(t, unschedulable, Run(ps).cordoned)| <= Limit(raw, t)
  }

  /** Every run, retries and blocked nodes included, stays within the limit if the target passes the check without uncordon. */
  lemma WithinLimit(ps: seq<Pass>, raw: PolicySpec, spec: RequestSpec, t: Target, unschedulable: set<string>)
    requires Fixed(ps, raw, spec.maxConcurrent, spec.uncordonAfter, t) && Sees(t, unschedulable)
    requires Policy.UnavailabilityCapped(Policy.WithDefaults(raw))
    requires !Preflight.TooManyUnavailable(Policy.WithDefaults(raw), NotReturning(spec), t)
    ensures |Unavailable(t, unschedulable, Run(ps).cordoned)| <= Limit(raw, t)
  {
    RunInTarget(ps, raw, spec, t);
    UnavailableSplit(t, unschedulable, Run(ps).cordoned);
  }

  /** The spec leaves both timeouts to the configuration. */
  predicate Untimed(spec: RequestSpec) {
    spec.drainTimeout <= 0 && spec.globalTimeout <= 0
  }

  /** A run of the request on which all nodes block exceeds the limit if the request may execute and the target does not
    * pass the check without uncordon. */
  lemma ExceedsLimit(raw: PolicySpec, spec: RequestSpec, t: Target, edits: bool, unschedulable: set<string>) returns (ps: seq<Pass>)
    requires Proper(t) && Sees(t, unschedulable) && t.missing == []
    requires Policy.UnavailabilityCapped(Policy.WithDefaults(raw))
    requires MayExecute(raw, spec) && (edits || Untimed(spec))
    requires !Preflight.TooManyUnavailable(Policy.WithDefaults(raw), spec, t)
    requires Preflight.TooManyUnavailable(Policy.WithDefaults(raw), NotReturning(spec), t)
    ensures Reads(ps, raw, spec, t, edits) && Caps.RetryFree(ps)
    ensures |Unavailable(t, unschedulable, Run(ps).cordoned)| > Limit(raw, t)
  {
    var terms := if edits then spec.(drainTimeout := 0, globalTimeout := 0) else spec;
    var c := Case(raw, terms, t, 2 + 12 * |t.nodes|);
    assert t.nodes != [];
    ps := BlockedRun(c);
    WholeTargetDown(t, unschedulable, Run(ps).cordoned);
  }

  /** A request that may not execute never cordons anything. */
  lemma NeverCordons(ps: seq<Pass>, raw: PolicySpec, spec: RequestSpec, t: Target, edits: bool)
    requires Reads(ps, raw, spec, t, edits) && !MayExecute(raw, spec)
    ensures Run(ps).cordoned == {}
  {
    if spec.mode == ModeDryRun {
      Gates.DryRunNeverMutates(ps);
    } else if spec.mode == ModeAdvisory {
      Gates.AdvisoryNeverMutates(ps);
    } else if spec.pause || spec.cancel {
      HeldNeverStarts(ps);
      Gates.OnlyStartsMutate(ps);
    } else {
      Gates.NeverJudged(ps, GateDrain, Approved);
      Gates.NeverJudged(ps, GateDrain, NotRequired);
      UnclearedHasNoRecords(ps);
      CordonsNeedRecords(ps);
    }
  }

  lemma {:induction false} HeldNeverStarts(ps: seq<Pass>)
    requires forall i | 0 <= i < |ps| :: ps[i].spec.pause || ps[i].spec.cancel
    ensures Gates.NeverStarts(ps)
  {
    if ps != [] {
      HeldNeverStarts(ps[..|ps| - 1]);
    }
  }

  lemma UnclearedHasNoRecords(ps: seq<Pass>)
    requires Judged(GateDrain, Approved) !in Run(ps).trace && Judged(GateDrain, NotRequired) !in Run(ps).trace
    ensures Run(ps).status.nodes == []
  {
    if Run(ps).status.nodes != [] {
      Journal.DrainGateNotBypassed(ps);
    }
  }

  lemma WithinLimitAtRest(raw: PolicySpec, spec: RequestSpec, t: Target, unschedulable: set<string>)
    requires Proper(t) && Sees(t, unschedulable)
    requires Policy.UnavailabilityCapped(Policy.WithDefaults(raw))
    requires !Preflight.TooManyUnavailable(Policy.WithDefaults(raw), spec, t)
    ensures |Unavailable(t, unschedulable, {})| <= Limit(raw, t)
  {
    CordonedNames(t.nodes, unschedulable);
    UnavailableSplit(t, unschedulable, {});
  }

  /** For a request that passes its checks, the limit holds on every run if and only if the request may not execute or its
    * target passes the check without uncordon: otherwise a run on which nodes block exceeds it, with no retry, and with no
    * edit but of the timeouts - with none at all if the request leaves these to the configuration. */
  lemma LimitHoldsIff(raw: PolicySpec, spec: RequestSpec, t: Target, edits: bool, unschedulable: set<string>)
    requires Proper(t) && Sees(t, unschedulable) && t.missing == [] && (edits || Untimed(spec))
    requires Policy.UnavailabilityCapped(Policy.WithDefaults(raw))
    requires !Preflight.TooManyUnavailable(Policy.WithDefaults(raw), spec, t)
    ensures AlwaysWithinLimit(raw, spec, t, edits, unschedulable)
            <==> !MayExecute(raw, spec) || !Preflight.TooManyUnavailable(Policy.WithDefaults(raw), NotReturning(spec), t)
  {
    if MayExecute(raw, spec) && Preflight.TooManyUnavailable(Policy.WithDefaults(raw), NotReturning(spec), t) {
      var ps := ExceedsLimit(raw, spec, t, edits, unschedulable);
    } else {
      forall ps: seq<Pass> | Reads(ps, raw, spec, t, edits)
        ensures |Unavailable(t, unschedulable, Run(ps).cordoned)| <= Limit(raw, t)
      {
        if MayExecute(raw, spec) {
          WithinLimit(ps, raw, spec, t, unschedulable);
        } else {
          NeverCordons(ps, raw, spec, t, edits);
          WithinLimitAtRest(raw, spec, t, unschedulable);
        }
      }
    }
  }

  // ----- two nodes, one allowed -----

  const ONE_AT_MOST := PolicySpec(1, 1, 0, 1, ApprovalAuto)
  const SERIAL := RequestSpec(ModeExecute, StrategySerial, 1, 1, 0, 0, true, ApprovalAuto, [], false, false, None)
  const PAIR := [TargetNode("a", false, "", None), TargetNode("b", false, "", None)]

  lemma {:induction false} NoneCordoned(ts: seq<TargetNode>)
    requires |ts| == 2 && !ts[0].unschedulable && !ts[1].unschedulable
    ensures Preflight.CountCordoned(ts) == 0
  {
    var one := ts[..1];
    assert one[..0] == [];
    assert Preflight.CountCordoned(one) == 0;
  }

  lemma OneAllowed(t: Target)
    requires t.universe == t.nodes && |t.nodes| == 2 && Preflight.CountCordoned(t.nodes) == 0
    ensures !Preflight.TooManyUnavailable(Policy.WithDefaults(ONE_AT_MOST), SERIAL, t)
    ensures Preflight.TooManyUnavailable(Policy.WithDefaults(ONE_AT_MOST), NotReturning(SERIAL), t)
    ensures Limit(ONE_AT_MOST, t) == 1
  {
  }

  /** Two nodes drained one at a time under a limit of one: the check passes, the first blocks and stays cordoned, the
    * second is cordoned too. */
  lemma BlockedNodeExceedsLimit() returns (ps: seq<Pass>)
    ensures var t := Target(PAIR, [], PAIR);
            && Reads(ps, ONE_AT_MOST, SERIAL, t, false) && Caps.RetryFree(ps)
            && !Preflight.TooManyUnavailable(Policy.WithDefaults(ONE_AT_MOST), SERIAL, t)
            && Limit(ONE_AT_MOST, t) == 1 && |Unavailable(t, {}, Run(ps).cordoned)| > 1
  {
    var t := Target(PAIR, [], PAIR);
    NoneCordoned(PAIR);
    OneAllowed(t);
    ps := ExceedsLimit(ONE_AT_MOST, SERIAL, t, false, {});
  }
}
