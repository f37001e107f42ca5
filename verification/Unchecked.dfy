/** A run on which a request executes though the target it starts on fails the checks it has passed. */
module Unchecked {
  import opened Api
  import opened Passes
  import opened Invariant
  import opened RequestOutcomes
  import opened Solo
  import opened Exceptions
  import Gates

  /** The target once a name is added that no node has. */
  const MISTYPED := Target([NODE], ["typo"], [NODE])

  lemma MistypedFails(p: Pass)
    requires p.policy.Some? && p.target == Some(MISTYPED)
    ensures ChecksFail(p, MISTYPED)
  {
  }

  lemma ToPlanned(spec: RequestSpec, evict: EvictResult) returns (ps: seq<Pass>, w: World)
    requires Plain(spec)
    ensures Leads(ps, w, 0) && Uniform(ps, spec) && StatusOk(w.status) && w.status.phase == PhasePlanned
  {
    var p := At(spec, 0, 0, evict);
    Begins(spec, 0, 0, evict);
    ps, w := Twice(p, Next(START, p), Next(Next(START, p), p));
    StatusAlwaysOk(ps);
  }

  lemma Twice(p: Pass, w1: World, w2: World) returns (ps: seq<Pass>, w: World)
    requires w1 == Next(START, p) && w2 == Next(w1, p)
    ensures ps == [p, p] && w == w2 && Leads(ps, w, p.now)
  {
    assert [] + [p] == [p] && [p] + [p] == [p, p];
    assert Leads([], START, p.now);
    LeadsOn([], START, p.now, p);
    LeadsOn([p], w1, p.now, p);
    ps, w := [p, p], w2;
  }

  /** A request that has passed its checks executes although the target it starts on fails them. */
  lemma StartsUnchecked() returns (ps: seq<Pass>, p: Pass)
    ensures Leads(ps + [p], Run(ps + [p]), 0) && Uniform(ps, RETURNS) && p.spec == RETURNS
    ensures p.target == Some(MISTYPED) && p.policy.Some? && ChecksFail(p, MISTYPED)
    ensures Run(ps).status.phase == PhasePlanned && Run(ps + [p]).status.phase == PhaseExecuting
  {
    var w: World;
    ps, w := ToPlanned(RETURNS, EMPTY);
    p := At(RETURNS, 0, 0, EMPTY).(target := Some(MISTYPED));
    MistypedFails(p);
    StartsAnew(w, p);
    LeadsOn(ps, w, 0, p);
  }

  lemma StartsAnew(w: World, p: Pass)
    requires StatusOk(w.status) && w.status.phase == PhasePlanned && p == At(RETURNS, 0, 0, EMPTY).(target := Some(MISTYPED))
    ensures Next(w, p).status.phase == PhaseExecuting
  {
    Gates.StartsMutate(w, p);
  }
}
