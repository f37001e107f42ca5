/** Replaced nodes are paid for by new ones: completed replacements never outrun the growth of the number of Ready
  * nodes at the target version by more than the concurrency allows. */
module Replacement {
  import opened Api
  import opened NodeMachine
  import opened Passes
  import opened Invariant
  import opened PassFacts
  import opened Caps
  import Policy

  /** Whether a record is charged to a baseline: it awaits its replacement, or has been completed by one. */
  predicate Charged(r: NodeRec, level: int) {
    r.phase in {NodeAwaitingReplacement, NodeCompleted} && r.baseline == level
  }

  /** How many records are charged to a baseline. */
  function ChargedAt(ns: seq<NodeRec>, level: int): nat {
    if ns == [] then 0 else ChargedAt(ns[..|ns| - 1], level) + (if Charged(ns[|ns| - 1], level) then 1 else 0)
  }

  lemma {:induction false} ChargedUpdate(ns: seq<NodeRec>, k: nat, r: NodeRec, level: int)
    requires k < |ns|
    ensures ChargedAt(ns[k := r], level)
         == ChargedAt(ns, level) - (if Charged(ns[k], level) then 1 else 0) + (if Charged(r, level) then 1 else 0)
  {
    var n := |ns| - 1;
    if k == n {
      assert ns[k := r][..n] == ns[..n];
    } else {
      assert ns[k := r][..n] == ns[..n][k := r];
      ChargedUpdate(ns[..n], k, r, level);
    }
  }

  /** When nothing completed is charged to a level, everything charged to it is in flight. */
  lemma {:induction false} ChargedInFlight(ns: seq<NodeRec>, level: int)
    requires forall i | 0 <= i < |ns| && ns[i].phase == NodeCompleted :: ns[i].baseline != level
    ensures ChargedAt(ns, level) <= CountIn(ns, {NodeAwaitingReplacement})
  {
    if ns != [] {
      ChargedInFlight(ns[..|ns| - 1], level);
    }
  }

  /** The accounts with at most c nodes in flight, the count having been lo at first and at most hi so far. */
  ghost predicate Balanced(ns: seq<NodeRec>, c: nat, lo: int, hi: int) {
    && lo <= hi
    && (forall i | 0 <= i < |ns| && ns[i].phase == NodeAwaitingReplacement :: lo <= ns[i].baseline <= hi)
    && (forall i | 0 <= i < |ns| && ns[i].phase == NodeCompleted :: lo <= ns[i].baseline < hi)
    && (forall i | 0 <= i < |ns| :: ns[i].phase != NodeUncordoning)
    && (forall level :: ChargedAt(ns, level) <= c)
  }

  lemma BalancedLater(ns: seq<NodeRec>, c: nat, lo: int, hi: int, later: int)
    requires Balanced(ns, c, lo, hi) && hi <= later
    ensures Balanced(ns, c, lo, later)
  {
  }

  /** The step replaces nodes against a target version and reads a count no smaller than any before. */
  ghost predicate Replaces(c: StepContext) {
    c.spec.ReplaceNodes() && c.spec.TargetVersion() != ""
  }

  /** The count a step would read; it stands for the count at the moment of the step. */
  function Reading(a: NodeAnswer, hi: int): int {
    if a.ready.Some? then a.ready.value else hi
  }

  /** What one step does to a record, as far as the accounts go. */
  lemma StepCharges(c: StepContext, a: NodeAnswer, r: NodeRec, fl: int)
    requires Replaces(c) && r.phase != NodeUncordoning
    ensures var r' := Step(c, a, r, fl).rec;
            && r'.phase != NodeUncordoning
            && (r'.phase == NodeCompleted ==>
                  || (r.phase == NodeCompleted && r' == r)
                  || (r.phase == NodeAwaitingReplacement && r'.baseline == r.baseline && a.ready.Some? && r.baseline < a.ready.value))
            && (r'.phase == NodeAwaitingReplacement ==>
                  r' == r || (r.phase == NodeReplacing && a.ready.Some? && r'.baseline == a.ready.value))
  {
  }

  /** One step keeps the accounts, with the count it read as the new bound. */
  lemma {:induction false} StepBalances(c: StepContext, a: NodeAnswer, ns: seq<NodeRec>, k: nat, fl: int, lim: nat, lo: int, hi: int,
                     ns': seq<NodeRec>, hi': int)
    requires Replaces(c) && k < |ns|
    requires Balanced(ns, lim, lo, hi) && hi <= hi' == Reading(a, hi)
    requires CountIn(ns, IN_FLIGHT) <= lim
    requires ns' == ns[k := Step(c, a, ns[k], fl).rec]
    ensures Balanced(ns', lim, lo, hi')
  {
    var r, r' := ns[k], ns'[k];
    StepCharges(c, a, r, fl);
    forall level ensures ChargedAt(ns', level) <= lim {
      ChargedUpdate(ns, k, r', level);
      if Charged(r', level) && !Charged(r, level) {
        assert r.phase == NodeReplacing && level == a.ready.value;
        RoomForOneMore(ns, k, level, hi, lim);
      }
    }
  }

  /** A node about to be charged to the current count finds room: all others charged to it are still in flight. */
  lemma {:induction false} RoomForOneMore(ns: seq<NodeRec>, k: nat, level: int, hi: int, lim: nat)
    requires k < |ns| && ns[k].phase == NodeReplacing
    requires forall i | 0 <= i < |ns| && ns[i].phase == NodeCompleted :: ns[i].baseline < hi
    requires hi <= level && CountIn(ns, IN_FLIGHT) <= lim
    ensures ChargedAt(ns, level) < lim
  {
    ChargedInFlight(ns, level);
    var rest := IN_FLIGHT - {NodeAwaitingReplacement};
    CountUnion(ns, {NodeAwaitingReplacement}, rest);
    assert {NodeAwaitingReplacement} + rest == IN_FLIGHT;
    CountBounds(ns, rest);
    assert ns[k].phase in rest;
  }

  /** The counts the answers of a pass report never shrink, from one node to the next and across passes. */
  ghost predicate NeverShrinks(answers: seq<NodeAnswer>, lower: int, upper: int) {
    && lower <= upper
    && (forall i | 0 <= i < |answers| && answers[i].ready.Some? :: lower <= answers[i].ready.value <= upper)
    && (forall i, j | 0 <= i < j < |answers| && answers[i].ready.Some? && answers[j].ready.Some? ::
          answers[i].ready.value <= answers[j].ready.value)
  }

  /** The largest count reported to the first k nodes. */
  function Highest(answers: seq<NodeAnswer>, lower: int, k: nat): int {
    if k == 0 then lower else Reading(AnswerAt(answers, k - 1), Highest(answers, lower, k - 1))
  }

  lemma {:induction false} HighestGrows(answers: seq<NodeAnswer>, lower: int, upper: int, k: nat)
    requires NeverShrinks(answers, lower, upper)
    ensures lower <= Highest(answers, lower, k) <= upper
    ensures Highest(answers, lower, k) <= Reading(AnswerAt(answers, k), Highest(answers, lower, k))
    ensures forall j | k <= j < |answers| && answers[j].ready.Some? :: Highest(answers, lower, k) <= answers[j].ready.value
  {
    if k > 0 {
      HighestGrows(answers, lower, upper, k - 1);
    }
  }

  /** The visit of the record at i, whether it comes to a step or not, keeps the accounts. */
  lemma VisitBalances(c: StepContext, a: NodeAnswer, q: LoopOut, o: LoopOut, i: nat, stepped: bool, lim: nat, lo: int, hi: int)
    requires i < |q.nodes| && Replaces(c)
    requires Balanced(q.nodes, lim, lo, hi) && CountIn(q.nodes, IN_FLIGHT) <= lim && hi <= Reading(a, hi)
    requires o.nodes == if stepped then q.nodes[i := Step(c, a, q.nodes[i], q.inFlight).rec] else q.nodes
    ensures Balanced(o.nodes, lim, lo, Reading(a, hi))
  {
    if stepped {
      StepBalances(c, a, q.nodes, i, q.inFlight, lim, lo, hi, o.nodes, Reading(a, hi));
    } else {
      BalancedLater(q.nodes, lim, lo, hi, Reading(a, hi));
    }
  }

  /** The largest count so far never falls over the first k nodes. */
  predicate Rising(answers: seq<NodeAnswer>, lower: int, k: nat) {
    k == 0 || (Rising(answers, lower, k - 1) && Highest(answers, lower, k - 1) <= Highest(answers, lower, k))
  }

  lemma {:induction false} NeverShrinksRises(answers: seq<NodeAnswer>, lower: int, upper: int, k: nat)
    requires NeverShrinks(answers, lower, upper)
    ensures Rising(answers, lower, k)
  {
    if k > 0 {
      NeverShrinksRises(answers, lower, upper, k - 1);
      HighestGrows(answers, lower, upper, k - 1);
    }
  }

  /** Never more than lim nodes are in flight from the start of the visit to node k. */
  ghost predicate VisitWithin(c: StepContext, answers: seq<NodeAnswer>, b: int, ns: seq<NodeRec>, fl: int, k: nat, lim: nat)
    requires k <= |ns|
  {
    && CountIn(StepTo(c, answers, b, ns, fl, k).nodes, IN_FLIGHT) <= lim
    && (k > 0 ==> VisitWithin(c, answers, b, ns, fl, k - 1, lim))
  }

  lemma {:induction false} LoopBalances(c: StepContext, answers: seq<NodeAnswer>, b: int, ns: seq<NodeRec>, fl: int, k: nat, lim: nat, lo: int, hi: int)
    requires k <= |ns| && Replaces(c) && VisitWithin(c, answers, b, ns, fl, k, lim)
    requires Balanced(ns, lim, lo, hi) && Rising(answers, hi, k)
    ensures Balanced(StepTo(c, answers, b, ns, fl, k).nodes, lim, lo, Highest(answers, hi, k))
  {
    if k > 0 {
      LoopBalances(c, answers, b, ns, fl, k - 1, lim, lo, hi);
      LoopVisitBalances(c, answers, b, ns, fl, k, lim, lo, hi);
    }
  }

  lemma LoopVisitBalances(c: StepContext, answers: seq<NodeAnswer>, b: int, ns: seq<NodeRec>, fl: int, k: nat, lim: nat, lo: int, hi: int)
    requires 0 < k <= |ns| && Replaces(c)
    requires Balanced(StepTo(c, answers, b, ns, fl, k - 1).nodes, lim, lo, Highest(answers, hi, k - 1))
    requires CountIn(StepTo(c, answers, b, ns, fl, k - 1).nodes, IN_FLIGHT) <= lim
    requires Highest(answers, hi, k - 1) <= Highest(answers, hi, k)
    ensures Balanced(StepTo(c, answers, b, ns, fl, k).nodes, lim, lo, Highest(answers, hi, k))
  {
    var q := StepTo(c, answers, b, ns, fl, k - 1);
    var stepped := !(q.err || ns[k - 1].batch != b || IsNodeTerminal(ns[k - 1].phase));
    VisitBalances(c, AnswerAt(answers, k - 1), q, StepTo(c, answers, b, ns, fl, k), k - 1, stepped, lim, lo, Highest(answers, hi, k - 1));
  }

  /** Never more than lim nodes are in flight during the visit, if the pass makes one. */
  ghost predicate PassWithin(p: Pass, s: Status, lim: nat) {
    RunsBatch(p, s) ==>
      VisitWithin(ContextOf(p, PolicyOf(p)), p.answers, CurrentBatch(s.nodes), s.nodes, CountIn(s.nodes, IN_FLIGHT), |s.nodes|, lim)
  }

  lemma {:induction false} RetryCharges(ns: seq<NodeRec>, now: int, level: int)
    ensures ChargedAt(RetryAll(ns, now), level) == ChargedAt(ns, level)
  {
    if ns != [] {
      var n := |ns| - 1;
      assert RetryAll(ns, now)[..n] == RetryAll(ns[..n], now);
      RetryCharges(ns[..n], now, level);
    }
  }

  lemma RetryBalances(ns: seq<NodeRec>, now: int, lim: nat, lo: int, hi: int)
    requires Balanced(ns, lim, lo, hi)
    ensures Balanced(RetryAll(ns, now), lim, lo, hi)
  {
    forall level ensures ChargedAt(RetryAll(ns, now), level) <= lim {
      RetryCharges(ns, now, level);
    }
  }

  lemma PassBalances(p: Pass, s: Status, lim: nat, lo: int, hi: int, upper: int)
    requires StatusOk(s) && PassWithin(p, s, lim)
    requires p.spec.ReplaceNodes() && p.spec.TargetVersion() != ""
    requires Balanced(s.nodes, lim, lo, hi) && NeverShrinks(p.answers, hi, upper)
    ensures Balanced(NodesAfter(p, s), lim, lo, upper)
  {
    if RunsBatch(p, s) {
      NeverShrinksRises(p.answers, hi, upper, |s.nodes|);
      LoopBalances(ContextOf(p, PolicyOf(p)), p.answers, CurrentBatch(s.nodes), s.nodes, CountIn(s.nodes, IN_FLIGHT), |s.nodes|, lim, lo, hi);
      HighestGrows(p.answers, hi, upper, |s.nodes|);
      BalancedLater(NodesAfter(p, s), lim, lo, Highest(p.answers, hi, |s.nodes|), upper);
    } else if Starts(p, s) && s.nodes == [] {
      PlanRecords(p, PolicyOf(p), p.target.value);
      AllPendingBalanced(NodesAfter(p, s), lim, lo, upper);
    } else if Retries(p, s) {
      RetryBalances(s.nodes, p.now, lim, lo, hi);
      BalancedLater(NodesAfter(p, s), lim, lo, hi, upper);
    } else {
      BalancedLater(s.nodes, lim, lo, hi, upper);
    }
  }

  lemma {:induction false} NothingCharged(ns: seq<NodeRec>, level: int)
    requires forall i | 0 <= i < |ns| :: ns[i].phase == NodePending
    ensures ChargedAt(ns, level) == 0
  {
    if ns != [] {
      NothingCharged(ns[..|ns| - 1], level);
    }
  }

  lemma AllPendingBalanced(ns: seq<NodeRec>, c: nat, lo: int, hi: int)
    requires lo <= hi
    requires forall i | 0 <= i < |ns| :: ns[i].phase == NodePending
    ensures Balanced(ns, c, lo, hi)
  {
    forall level ensures ChargedAt(ns, level) <= c {
      NothingCharged(ns, level);
    }
  }

  // ----- runs -----

  /** Every pass replaces nodes against a target version. */
  ghost predicate AllReplace(ps: seq<Pass>) {
    forall i | 0 <= i < |ps| :: ps[i].spec.ReplaceNodes() && ps[i].spec.TargetVersion() != ""
  }

  /** counts[i] bounds the Ready count before pass i; the count never shrinks along the run. */
  ghost predicate Growing(ps: seq<Pass>, counts: seq<int>) {
    |counts| == |ps| + 1 && forall i {:trigger ps[i]} | 0 <= i < |ps| :: NeverShrinks(ps[i].answers, counts[i], counts[i + 1])
  }

  /** At no moment of the run are more than c nodes in flight. */
  ghost predicate NeverMore(ps: seq<Pass>, c: nat) {
    ps == [] || (NeverMore(ps[..|ps| - 1], c) && PassWithin(ps[|ps| - 1], Run(ps[..|ps| - 1]).status, c))
  }

  lemma {:induction false} RunBalances(ps: seq<Pass>, counts: seq<int>, c: nat)
    requires AllReplace(ps) && NeverMore(ps, c) && Growing(ps, counts)
    ensures Balanced(Run(ps).status.nodes, c, counts[0], counts[|ps|])
  {
    if ps == [] {
      AllPendingBalanced([], c, counts[0], counts[0]);
    } else {
      var n := |ps| - 1;
      var s := Run(ps[..n]).status;
      assert Growing(ps[..n], counts[..n + 1]) by {
        assert forall i | 0 <= i < n :: ps[..n][i] == ps[i];
      }
      RunBalances(ps[..n], counts[..n + 1], c);
      StatusAlwaysOk(ps[..n]);
      PassNodes(ps[n], s);
      PassBalances(ps[n], s, c, counts[0], counts[n], counts[n + 1]);
      BalancedLater(s.nodes, c, counts[0], counts[n], counts[n + 1]);
    }
  }

  /** How many completed records have a baseline from lo up to, but not including, upper. */
  function CompletedBelow(ns: seq<NodeRec>, lo: int, upper: int): nat {
    if ns == [] then 0
    else
      var r := ns[|ns| - 1];
      CompletedBelow(ns[..|ns| - 1], lo, upper) + (if r.phase == NodeCompleted && lo <= r.baseline < upper then 1 else 0)
  }

  lemma {:induction false} OneMoreLevel(ns: seq<NodeRec>, lo: int, upper: int)
    ensures CompletedBelow(ns, lo, upper + 1) <= CompletedBelow(ns, lo, upper) + ChargedAt(ns, upper)
  {
    if ns != [] {
      OneMoreLevel(ns[..|ns| - 1], lo, upper);
    }
  }

  lemma {:induction false} NoneBelow(ns: seq<NodeRec>, lo: int)
    ensures CompletedBelow(ns, lo, lo) == 0
  {
    if ns != [] {
      NoneBelow(ns[..|ns| - 1], lo);
    }
  }

  lemma {:induction false} LevelsSum(ns: seq<NodeRec>, c: nat, lo: int, upper: int)
    requires lo <= upper && forall level :: ChargedAt(ns, level) <= c
    ensures CompletedBelow(ns, lo, upper) <= c * (upper - lo)
    decreases upper - lo
  {
    if lo == upper {
      NoneBelow(ns, lo);
    } else {
      LevelsSum(ns, c, lo, upper - 1);
      OneMoreLevel(ns, lo, upper - 1);
      assert c * (upper - lo) == c * (upper - 1 - lo) + c;
    }
  }

  lemma {:induction false} AllCompletedBelow(ns: seq<NodeRec>, lo: int, upper: int)
    requires forall i | 0 <= i < |ns| && ns[i].phase == NodeCompleted :: lo <= ns[i].baseline < upper
    ensures CompletedBelow(ns, lo, upper) == CountIn(ns, {NodeCompleted})
  {
    if ns != [] {
      AllCompletedBelow(ns[..|ns| - 1], lo, upper);
    }
  }

  lemma {:induction false} BalancedPays(ns: seq<NodeRec>, c: nat, lo: int, growth: int)
    requires Balanced(ns, c, lo, lo + growth)
    ensures CountIn(ns, {NodeCompleted}) <= c * growth
  {
    LevelsSum(ns, c, lo, lo + growth);
    AllCompletedBelow(ns, lo, lo + growth);
  }

  /** If the number of Ready nodes at the target version never shrinks, then after k nodes completed by replacement at least
    * k / c new nodes are Ready at the version, c being the largest number of nodes ever in flight, retried ones included. */
  lemma {:induction false} ReplacementsArePaidFor(ps: seq<Pass>, counts: seq<int>, c: nat, growth: int)
    requires AllReplace(ps) && NeverMore(ps, c) && Growing(ps, counts)
    requires growth == counts[|ps|] - counts[0]
    ensures CountIn(Run(ps).status.nodes, {NodeCompleted}) <= c * growth
  {
    RunBalances(ps, counts, c);
    BalancedPays(Run(ps).status.nodes, c, counts[0], growth);
  }

  lemma {:induction false} VisitWithinConcurrency(c: StepContext, answers: seq<NodeAnswer>, b: int, ns: seq<NodeRec>, fl: int, k: nat, lim: nat)
    requires k <= |ns| && c.concurrency <= lim && fl == CountIn(ns, IN_FLIGHT) <= lim
    ensures VisitWithin(c, answers, b, ns, fl, k, lim)
  {
    InFlightWithin(c, answers, b, ns, fl, k, lim);
    if k > 0 {
      VisitWithinConcurrency(c, answers, b, ns, fl, k - 1, lim);
    }
  }

  lemma {:induction false} InFlightWithin(c: StepContext, answers: seq<NodeAnswer>, b: int, ns: seq<NodeRec>, fl: int, k: nat, lim: nat)
    requires k <= |ns| && c.concurrency <= lim && fl == CountIn(ns, IN_FLIGHT) <= lim
    ensures CountIn(StepTo(c, answers, b, ns, fl, k).nodes, IN_FLIGHT) <= lim
  {
    LoopCounts(c, answers, b, ns, k);
  }

  lemma ConcurrencyWithin(p: Pass, s: Status, c: nat)
    requires CountIn(s.nodes, IN_FLIGHT) <= c
    requires p.policy.Some? ==> Policy.Concurrency(PolicyOf(p), p.spec.maxConcurrent) <= c
    ensures PassWithin(p, s, c)
  {
    if RunsBatch(p, s) {
      VisitWithinConcurrency(ContextOf(p, PolicyOf(p)), p.answers, CurrentBatch(s.nodes), s.nodes, CountIn(s.nodes, IN_FLIGHT), |s.nodes|, c);
    }
  }

  lemma {:induction false} ConcurrencyIsNeverMore(ps: seq<Pass>, c: nat)
    requires RetryFree(ps) && AtMost(ps, c)
    ensures NeverMore(ps, c)
  {
    if ps != [] {
      var n := |ps| - 1;
      ConcurrencyIsNeverMore(ps[..n], c);
      OwnConcurrency(ps[..n], c);
      ConcurrencyWithin(ps[n], Run(ps[..n]).status, c);
    }
  }

  /** Up to the first retry the effective concurrency will do for c. */
  lemma {:induction false} PaidForByConcurrency(ps: seq<Pass>, counts: seq<int>, c: nat, growth: int)
    requires AllReplace(ps) && RetryFree(ps) && AtMost(ps, c) && Growing(ps, counts)
    requires growth == counts[|ps|] - counts[0]
    ensures CountIn(Run(ps).status.nodes, {NodeCompleted}) <= c * growth
  {
    ConcurrencyIsNeverMore(ps, c);
    ReplacementsArePaidFor(ps, counts, c, growth);
  }

  /** One at a time, every completed replacement has its own new Ready node. */
  lemma {:induction false} SerialReplacementsOneForOne(ps: seq<Pass>, counts: seq<int>)
    requires AllReplace(ps) && RetryFree(ps) && AtMost(ps, 1) && Growing(ps, counts)
    ensures CountIn(Run(ps).status.nodes, {NodeCompleted}) <= counts[|ps|] - counts[0]
  {
    PaidForByConcurrency(ps, counts, 1, counts[|ps|] - counts[0]);
  }
}
