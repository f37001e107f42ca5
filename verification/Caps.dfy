/** How many nodes are in flight at once: within one request, and over all requests of a cluster. */
module Caps {
  import opened Api
  import opened NodeMachine
  import opened Passes
  import opened Invariant
  import opened PassFacts
  import opened StateMachine

  // ----- the counter follows the records -----

  /** A step moves the counter exactly as it moves the node in or out of flight, and lets a node start only below the limit. */
  lemma StepCounts(c: StepContext, a: NodeAnswer, r: NodeRec, fl: int)
    ensures var s := Step(c, a, r, fl);
            s.inFlight - fl == (if s.rec.phase in IN_FLIGHT then 1 else 0) - (if r.phase in IN_FLIGHT then 1 else 0)
    ensures Step(c, a, r, fl).inFlight > fl ==> r.phase == NodePending && fl < c.concurrency && c.windowOpen
  {
  }

  /** The counter and the records of a visit agree, and the counter is not above both its start and the limit. */
  ghost predicate Counted(o: LoopOut, start: int, limit: int) {
    o.inFlight == CountIn(o.nodes, IN_FLIGHT) && (o.inFlight <= start || o.inFlight <= limit)
  }

  lemma VisitCounts(c: StepContext, answers: seq<NodeAnswer>, b: int, ns: seq<NodeRec>, fl: int, k: nat)
    requires k < |ns| && Counted(StepTo(c, answers, b, ns, fl, k), fl, c.concurrency)
    ensures Counted(StepTo(c, answers, b, ns, fl, k + 1), fl, c.concurrency)
  {
    var q := StepTo(c, answers, b, ns, fl, k);
    if !(q.err || ns[k].batch != b || IsNodeTerminal(ns[k].phase)) {
      var s := Step(c, AnswerAt(answers, k), ns[k], q.inFlight);
      StepCounts(c, AnswerAt(answers, k), ns[k], q.inFlight);
      CountUpdate(q.nodes, k, s.rec, IN_FLIGHT);
    }
  }

  /** Through every branch of every step the running counter equals the number of records in flight, and the
    * visit never takes it above both its start and the limit. */
  lemma {:induction false} LoopCounts(c: StepContext, answers: seq<NodeAnswer>, b: int, ns: seq<NodeRec>, k: nat)
    requires k <= |ns|
    ensures Counted(StepTo(c, answers, b, ns, CountIn(ns, IN_FLIGHT), k), CountIn(ns, IN_FLIGHT), c.concurrency)
  {
    if k > 0 {
      LoopCounts(c, answers, b, ns, k - 1);
      VisitCounts(c, answers, b, ns, CountIn(ns, IN_FLIGHT), k - 1);
    }
  }

  lemma {:induction false} PendingNotInFlight(ns: seq<NodeRec>)
    requires forall i | 0 <= i < |ns| :: ns[i].phase == NodePending
    ensures CountIn(ns, IN_FLIGHT) == 0
  {
    CountBounds(ns, IN_FLIGHT);
  }

  /** A pass other than a retry raises the number in flight at most to the budget it computed. */
  lemma PassCounts(p: Pass, s: Status)
    requires StatusOk(s) && !Retries(p, s)
    ensures var n := CountIn(NodesAfter(p, s), IN_FLIGHT);
            n <= CountIn(s.nodes, IN_FLIGHT) || (p.policy.Some? && n <= Budget(p, PolicyOf(p)))
  {
    if RunsBatch(p, s) {
      LoopCounts(ContextOf(p, PolicyOf(p)), p.answers, CurrentBatch(s.nodes), s.nodes, |s.nodes|);
    } else if Starts(p, s) && s.nodes == [] {
      PlanRecords(p, PolicyOf(p), p.target.value);
      PendingNotInFlight(NodesAfter(p, s));
    }
  }

  // ----- a retry -----

  /** A retry puts exactly the blocked nodes in flight: no budget, window or concurrency is consulted. */
  lemma RetryCounts(p: Pass, s: Status)
    requires StatusOk(s) && Retries(p, s)
    ensures CountIn(NodesAfter(p, s), IN_FLIGHT) == CountIn(s.nodes, {NodeBlocked})
    ensures CountIn(s.nodes, IN_FLIGHT) == 0
  {
    assert AllBlocked(s.nodes);
    AllTerminalCounts(s.nodes, p.now);
    assert NodesAfter(p, s) == RetryAll(s.nodes, p.now);
  }

  lemma {:induction false} AllTerminalCounts(ns: seq<NodeRec>, now: int)
    requires forall i | 0 <= i < |ns| :: IsNodeTerminal(ns[i].phase)
    ensures CountIn(RetryAll(ns, now), IN_FLIGHT) == CountIn(ns, {NodeBlocked})
    ensures CountIn(ns, IN_FLIGHT) == 0
  {
    RetryCountsBlocked(ns, now);
    CountBounds(ns, IN_FLIGHT);
    forall i | 0 <= i < |ns| ensures ns[i].phase !in IN_FLIGHT {
      InFlightOrNot(ns[i].phase);
    }
  }

  lemma {:induction false} RetryCountsBlocked(ns: seq<NodeRec>, now: int)
    requires forall i | 0 <= i < |ns| :: IsNodeTerminal(ns[i].phase)
    ensures CountIn(RetryAll(ns, now), IN_FLIGHT) == CountIn(ns, {NodeBlocked})
  {
    if ns != [] {
      var n := |ns| - 1;
      RetryCountsBlocked(ns[..n], now);
      assert RetryAll(ns, now)[..n] == RetryAll(ns[..n], now);
    }
  }

  // ----- runs without a retry -----

  /** No pass of the run is a retry. */
  predicate RetryFree(ps: seq<Pass>) {
    ps == [] || (RetryFree(ps[..|ps| - 1]) && !Retries(ps[|ps| - 1], Run(ps[..|ps| - 1]).status))
  }

  /** Every pass allows this request at most c nodes in flight. */
  ghost predicate AtMost(ps: seq<Pass>, c: int) {
    forall i | 0 <= i < |ps| && ps[i].policy.Some? ::
      1 <= c && (ps[i].spec.maxConcurrent <= c || ps[i].policy.value.maxConcurrentDrains <= c)
  }

  /** Up to its first retry a request never has more nodes in flight than its effective concurrency. */
  lemma {:induction false} OwnConcurrency(ps: seq<Pass>, c: nat)
    requires RetryFree(ps) && AtMost(ps, c)
    ensures CountIn(Run(ps).status.nodes, IN_FLIGHT) <= c
  {
    if ps != [] {
      var n := |ps| - 1;
      OwnConcurrency(ps[..n], c);
      StatusAlwaysOk(ps[..n]);
      OwnNext(Run(ps[..n]), ps[n], c);
    }
  }

  lemma OwnNext(w: World, p: Pass, c: nat)
    requires StatusOk(w.status) && !Retries(p, w.status) && CountIn(w.status.nodes, IN_FLIGHT) <= c
    requires p.policy.Some? ==> 1 <= c && (p.spec.maxConcurrent <= c || p.policy.value.maxConcurrentDrains <= c)
    ensures CountIn(Next(w, p).status.nodes, IN_FLIGHT) <= c
  {
    PassCounts(p, w.status);
    PassNodes(p, w.status);
  }

  // ----- all requests of a cluster -----

  /** What a request counts against the cluster-wide cap. */
  function Load(w: World): nat {
    if IsTerminal(w.status.phase) then 0 else CountIn(w.status.nodes, IN_FLIGHT)
  }

  function Total(sys: seq<World>): nat {
    if sys == [] then 0 else Total(sys[..|sys| - 1]) + Load(sys[|sys| - 1])
  }

  /** The load of all requests but one: what listing them gives a pass over that one. */
  function OthersLoad(sys: seq<World>, i: nat): (n: nat)
    requires i < |sys|
  {
    TotalSplit(sys, i);
    Total(sys) - Load(sys[i])
  }

  lemma {:induction false} TotalSplit(sys: seq<World>, i: nat)
    requires i < |sys|
    ensures Load(sys[i]) <= Total(sys)
  {
    if i < |sys| - 1 {
      TotalSplit(sys[..|sys| - 1], i);
    }
  }

  lemma {:induction false} TotalUpdate(sys: seq<World>, i: nat, w: World)
    requires i < |sys|
    ensures Total(sys[i := w]) == Total(sys) - Load(sys[i]) + Load(w)
  {
    var n := |sys| - 1;
    if i == n {
      assert sys[i := w][..n] == sys[..n];
    } else {
      assert sys[i := w][..n] == sys[..n][i := w];
      TotalUpdate(sys[..n], i, w);
    }
  }

  /** A pass over request i reads the load of the others as it is. */
  function SeeingOthers(sys: seq<World>, i: nat, p: Pass): Pass
    requires i < |sys|
  {
    p.(others := Some(OthersLoad(sys, i)))
  }

  function SysNext(sys: seq<World>, i: nat, p: Pass): seq<World>
    requires i < |sys|
  {
    sys[i := Next(sys[i], SeeingOthers(sys, i, p))]
  }

  /** n requests after a schedule of passes, one pass at a time; a pass over no request does nothing. */
  function SysRun(n: nat, schedule: seq<(nat, Pass)>): (sys: seq<World>)
    ensures |sys| == n
  {
    if schedule == [] then seq(n, _ => START)
    else
      var sys := SysRun(n, schedule[..|schedule| - 1]);
      var (i, p) := schedule[|schedule| - 1];
      if i < n then SysNext(sys, i, p) else sys
  }

  ghost predicate AllStatusOk(sys: seq<World>) {
    forall i | 0 <= i < |sys| :: StatusOk(sys[i].status)
  }

  /** The one pass over a request that is not a retry takes its load at most to what the cap leaves. */
  lemma NextLoad(w: World, p: Pass, others: nat, cap: nat)
    requires StatusOk(w.status) && !Retries(p, w.status)
    requires p.others == Some(others)
    requires p.policy.Some? ==> PolicyOf(p).maxConcurrentDrains <= cap
    ensures Load(Next(w, p)) <= Load(w) || others + Load(Next(w, p)) <= cap
  {
    PassCounts(p, w.status);
    PassNodes(p, w.status);
    if IsTerminal(w.status.phase) {
      assert Reconcile(p, w.status) == Idle(w.status);
    }
  }

  lemma {:induction false} NothingAtStart(n: nat)
    ensures Total(seq(n, _ => START)) == 0
  {
    if n > 0 {
      NothingAtStart(n - 1);
      assert seq(n, _ => START)[..n - 1] == seq(n - 1, _ => START);
    }
  }

  /** After a stored retry the cap holds exactly when the others' load and the retried nodes fit under it. */
  lemma RetryKeepsCapIff(sys: seq<World>, i: nat, p: Pass, cap: nat)
    requires i < |sys| && StatusOk(sys[i].status) && StoredRetry(sys, i, p)
    ensures Total(SysNext(sys, i, p)) <= cap <==> RetryFits(sys, i, cap)
  {
    var q := SeeingOthers(sys, i, p);
    RetryCounts(q, sys[i].status);
    PassNodes(q, sys[i].status);
    TotalUpdate(sys, i, Next(sys[i], q));
  }

  /** The pass is a retry of request i whose status is stored. */
  predicate StoredRetry(sys: seq<World>, i: nat, p: Pass)
    requires i < |sys|
  {
    p.writeOk && Retries(SeeingOthers(sys, i, p), sys[i].status)
  }

  /** What the others have in flight leaves room for the blocked nodes of request i. */
  predicate RetryFits(sys: seq<World>, i: nat, cap: nat)
    requires i < |sys|
  {
    OthersLoad(sys, i) + CountIn(sys[i].status.nodes, {NodeBlocked}) <= cap
  }

  lemma RetryThatIsLost(w: World, p: Pass)
    requires Retries(p, w.status) && !p.writeOk
    ensures Load(Next(w, p)) == Load(w)
  {
  }

  /** One pass of a schedule, from a total within the cap: only a stored retry that does not fit leaves it. */
  lemma {:induction false} StepWithinCap(sys: seq<World>, i: nat, p: Pass, cap: nat)
    requires i < |sys| && StatusOk(sys[i].status) && Total(sys) <= cap
    requires p.policy.Some? ==> PolicyOf(p).maxConcurrentDrains <= cap
    ensures Total(SysNext(sys, i, p)) <= cap <==> (StoredRetry(sys, i, p) ==> RetryFits(sys, i, cap))
  {
    var q := SeeingOthers(sys, i, p);
    if StoredRetry(sys, i, p) {
      RetryKeepsCapIff(sys, i, p, cap);
    } else {
      TotalUpdate(sys, i, Next(sys[i], q));
      if Retries(q, sys[i].status) {
        RetryThatIsLost(sys[i], q);
      } else {
        NextLoad(sys[i], q, OthersLoad(sys, i), cap);
      }
    }
  }

  /** Every policy of the schedule caps drains at no more than cap. */
  ghost predicate UnderPolicy(schedule: seq<(nat, Pass)>, cap: nat) {
    forall k | 0 <= k < |schedule| && schedule[k].1.policy.Some? :: 1 <= cap && schedule[k].1.policy.value.maxConcurrentDrains <= cap
  }

  /** Every stored retry of the schedule fits when it happens. */
  ghost predicate RetriesFit(n: nat, schedule: seq<(nat, Pass)>, cap: nat) {
    schedule != [] ==>
      var m := |schedule| - 1;
      var (i, p) := schedule[m];
      var sys := SysRun(n, schedule[..m]);
      RetriesFit(n, schedule[..m], cap) && (i < n && StoredRetry(sys, i, p) ==> RetryFits(sys, i, cap))
  }

  /** The nodes in flight over all unfinished requests are within the cap at every moment of the schedule. */
  ghost predicate AlwaysWithin(n: nat, schedule: seq<(nat, Pass)>, cap: nat) {
    Total(SysRun(n, schedule)) <= cap && (schedule != [] ==> AlwaysWithin(n, schedule[..|schedule| - 1], cap))
  }

  lemma {:induction false} SysStatusOk(n: nat, schedule: seq<(nat, Pass)>)
    ensures AllStatusOk(SysRun(n, schedule))
  {
    if schedule == [] {
      StatusAlwaysOk([]);
    } else {
      var m := |schedule| - 1;
      var sys := SysRun(n, schedule[..m]);
      var (i, p) := schedule[m];
      SysStatusOk(n, schedule[..m]);
      if i < n {
        PassKeepsStatus(SeeingOthers(sys, i, p), sys[i].status);
      }
    }
  }

  /** The cluster-wide cap: for any number of requests, any interleaving of their passes, any answers and any
    * lost writes, the nodes in flight over all unfinished requests are within the cap at every moment if and only if
    * each stored retry leaves them so. */
  lemma {:induction false} CapHoldsIffRetriesFit(n: nat, schedule: seq<(nat, Pass)>, cap: nat)
    requires UnderPolicy(schedule, cap)
    ensures AlwaysWithin(n, schedule, cap) <==> RetriesFit(n, schedule, cap)
  {
    if schedule == [] {
      NothingAtStart(n);
    } else {
      var m := |schedule| - 1;
      var sys := SysRun(n, schedule[..m]);
      var (i, p) := schedule[m];
      CapHoldsIffRetriesFit(n, schedule[..m], cap);
      SysStatusOk(n, schedule[..m]);
      if AlwaysWithin(n, schedule[..m], cap) && i < n {
        StepWithinCap(sys, i, p, cap);
      }
    }
  }

  /** A schedule in which no request is retried and every policy caps drains at no more than cap. */
  ghost predicate Capped(n: nat, schedule: seq<(nat, Pass)>, cap: nat) {
    schedule != [] ==>
      var m := |schedule| - 1;
      var (i, p) := schedule[m];
      && Capped(n, schedule[..m], cap)
      && (p.policy.Some? ==> 1 <= cap && p.policy.value.maxConcurrentDrains <= cap)
      && (i < n ==> !Retries(SeeingOthers(SysRun(n, schedule[..m]), i, p), SysRun(n, schedule[..m])[i].status))
  }

  lemma {:induction false} CappedPolicies(n: nat, schedule: seq<(nat, Pass)>, cap: nat)
    requires Capped(n, schedule, cap)
    ensures UnderPolicy(schedule, cap)
  {
    if schedule != [] {
      var m := |schedule| - 1;
      CappedPolicies(n, schedule[..m], cap);
      assert forall k | 0 <= k < m :: schedule[..m][k] == schedule[k];
    }
  }

  lemma {:induction false} CappedFits(n: nat, schedule: seq<(nat, Pass)>, cap: nat)
    requires Capped(n, schedule, cap)
    ensures RetriesFit(n, schedule, cap)
  {
    if schedule != [] {
      CappedFits(n, schedule[..|schedule| - 1], cap);
    }
  }

  /** Up to the first retry the cap holds without any condition. */
  lemma {:induction false} ClusterWideCap(n: nat, schedule: seq<(nat, Pass)>, cap: nat)
    requires Capped(n, schedule, cap)
    ensures Total(SysRun(n, schedule)) <= cap
  {
    CappedPolicies(n, schedule, cap);
    CappedFits(n, schedule, cap);
    CapHoldsIffRetriesFit(n, schedule, cap);
  }

  // ----- starting nodes -----

  lemma {:induction false} LeavesPending(c: StepContext, answers: seq<NodeAnswer>, b: int, ns: seq<NodeRec>, i: nat)
    requires i < |ns| && ns[i].phase == NodePending
    requires StepTo(c, answers, b, ns, CountIn(ns, IN_FLIGHT), |ns|).nodes[i].phase != NodePending
    ensures ns[i].batch == b && c.windowOpen
    ensures CountIn(StepTo(c, answers, b, ns, CountIn(ns, IN_FLIGHT), i).nodes, IN_FLIGHT) < c.concurrency
  {
    LoopCounts(c, answers, b, ns, i);
    VisitedOnce(c, answers, b, ns, CountIn(ns, IN_FLIGHT), i, |ns|);
  }

  /** A node leaves Pending only in the visit of its own batch, when every node of a lower batch is terminal, the
    * window is open, and fewer nodes than the budget were in flight when its turn came. */
  lemma StartDiscipline(p: Pass, s: Status, i: nat)
    requires StatusOk(s) && i < |s.nodes|
    requires s.nodes[i].phase == NodePending && NodesAfter(p, s)[i].phase != NodePending
    ensures RunsBatch(p, s) && p.windows == Some(true)
    ensures forall j | 0 <= j < |s.nodes| && s.nodes[j].batch < s.nodes[i].batch :: IsNodeTerminal(s.nodes[j].phase)
    ensures CountIn(VisitedTo(p, s, i).nodes, IN_FLIGHT) < Budget(p, PolicyOf(p))
  {
    CurrentBatchIsLeast(s.nodes);
    LeavesPending(ContextOf(p, PolicyOf(p)), p.answers, CurrentBatch(s.nodes), s.nodes, i);
  }

  /** The state of the visit when it comes to node i. */
  function VisitedTo(p: Pass, s: Status, i: nat): LoopOut
    requires i <= |s.nodes| && p.policy.Some?
  {
    StepTo(ContextOf(p, PolicyOf(p)), p.answers, CurrentBatch(s.nodes), s.nodes, CountIn(s.nodes, IN_FLIGHT), i)
  }

  /** Once passed, a record is not touched again. */
  lemma {:induction false} VisitedOnce(c: StepContext, answers: seq<NodeAnswer>, b: int, ns: seq<NodeRec>, fl: int, i: nat, k: nat)
    requires i < k <= |ns|
    ensures StepTo(c, answers, b, ns, fl, k).nodes[i] == StepTo(c, answers, b, ns, fl, i + 1).nodes[i]
    decreases k
  {
    if i + 1 < k {
      VisitedOnce(c, answers, b, ns, fl, i, k - 1);
    }
  }

  // ----- one batch at a time -----

  /** Every node in flight is in the current batch. */
  ghost predicate OneBatch(ns: seq<NodeRec>) {
    forall i | 0 <= i < |ns| && ns[i].phase in IN_FLIGHT :: ns[i].batch == CurrentBatch(ns)
  }

  lemma OneBatchKept(p: Pass, s: Status)
    requires StatusOk(s) && OneBatch(s.nodes) && !Retries(p, s)
    ensures OneBatch(NodesAfter(p, s))
  {
    if RunsBatch(p, s) {
      BatchKeepsNodes(p, PolicyOf(p), s);
      StillCurrent(s.nodes, NodesAfter(p, s));
    } else if Starts(p, s) && s.nodes == [] {
      PlanRecords(p, PolicyOf(p), p.target.value);
      PendingInOneBatch(NodesAfter(p, s));
    }
  }

  lemma PendingInOneBatch(ns: seq<NodeRec>)
    requires forall i | 0 <= i < |ns| :: ns[i].phase == NodePending
    ensures OneBatch(ns)
  {
  }

  lemma {:induction false} StillCurrent(ns: seq<NodeRec>, ns': seq<NodeRec>)
    requires NodesOk(ns) && NodesOk(ns') && SameShape(ns', ns) && OneBatch(ns)
    requires forall i | 0 <= i < |ns| && ns'[i] != ns[i] :: ns[i].batch == CurrentBatch(ns)
    ensures OneBatch(ns')
  {
    CurrentBatchIsLeast(ns);
    CurrentBatchIsLeast(ns');
    forall i | 0 <= i < |ns'| && ns'[i].phase in IN_FLIGHT ensures ns'[i].batch == CurrentBatch(ns') {
      InFlightOrNot(ns'[i].phase);
      assert ns'[i].batch == CurrentBatch(ns);
      var j :| 0 <= j < |ns'| && !IsNodeTerminal(ns'[j].phase) && ns'[j].batch == CurrentBatch(ns');
      assert ns[j] == ns'[j] || ns[j].batch == CurrentBatch(ns);
    }
  }

  /** A retry keeps all nodes in flight in one batch exactly when all blocked nodes are in one batch. */
  lemma RetryKeepsOneBatchIff(p: Pass, s: Status)
    requires StatusOk(s) && Retries(p, s)
    ensures OneBatch(NodesAfter(p, s)) <==> BlockedInOne(s.nodes)
  {
    RetriedOneBatchIff(s.nodes, p.now);
  }

  lemma RetriedOneBatchIff(ns: seq<NodeRec>, now: int)
    requires NodesOk(ns) && AllBlocked(ns)
    ensures OneBatch(RetryAll(ns, now)) <==> BlockedInOne(ns)
  {
    var rs := RetryAll(ns, now);
    RetryKeepsNodes(ns, now);
    CurrentBatchIsLeast(rs);
    forall i | 0 <= i < |rs|
      ensures rs[i].batch == ns[i].batch
      ensures rs[i].phase in IN_FLIGHT <==> ns[i].phase == NodeBlocked
      ensures !IsNodeTerminal(rs[i].phase) <==> ns[i].phase == NodeBlocked
    {
      InFlightOrNot(ns[i].phase);
    }
  }

  /** All blocked nodes are in one batch. */
  ghost predicate BlockedInOne(ns: seq<NodeRec>) {
    forall i, j | 0 <= i < |ns| && 0 <= j < |ns| && ns[i].phase == ns[j].phase == NodeBlocked :: ns[i].batch == ns[j].batch
  }

  /** At every moment of the run all nodes in flight are in the current batch. */
  ghost predicate AlwaysOneBatch(ps: seq<Pass>) {
    OneBatch(Run(ps).status.nodes) && (ps != [] ==> AlwaysOneBatch(ps[..|ps| - 1]))
  }

  /** Each retry of the run whose status is stored finds all blocked nodes in one batch. */
  ghost predicate RetriesInOne(ps: seq<Pass>) {
    ps != [] ==>
      var p, s := ps[|ps| - 1], Run(ps[..|ps| - 1]).status;
      RetriesInOne(ps[..|ps| - 1]) && (Retries(p, s) && p.writeOk ==> BlockedInOne(s.nodes))
  }

  lemma NextOneBatchIff(w: World, p: Pass)
    requires StatusOk(w.status) && OneBatch(w.status.nodes)
    ensures OneBatch(Next(w, p).status.nodes) <==> (Retries(p, w.status) && p.writeOk ==> BlockedInOne(w.status.nodes))
  {
    PassNodes(p, w.status);
    if Retries(p, w.status) {
      RetryKeepsOneBatchIff(p, w.status);
    } else {
      OneBatchKept(p, w.status);
    }
  }

  /** A request never has nodes of two batches - two zones, two pools - in flight at once if and only if each stored retry
    * finds all its blocked nodes in one batch. */
  lemma {:induction false} OneBatchIffRetriesInOne(ps: seq<Pass>)
    ensures AlwaysOneBatch(ps) <==> RetriesInOne(ps)
  {
    if ps != [] {
      var n := |ps| - 1;
      OneBatchIffRetriesInOne(ps[..n]);
      StatusAlwaysOk(ps[..n]);
      if AlwaysOneBatch(ps[..n]) {
        NextOneBatchIff(Run(ps[..n]), ps[n]);
      }
    }
  }

  lemma {:induction false} NoRetriesInOne(ps: seq<Pass>)
    requires RetryFree(ps)
    ensures RetriesInOne(ps)
  {
    if ps != [] {
      NoRetriesInOne(ps[..|ps| - 1]);
    }
  }

  /** Up to the first retry it never has, without any condition. */
  lemma {:induction false} OneBatchAtATime(ps: seq<Pass>)
    requires RetryFree(ps)
    ensures OneBatch(Run(ps).status.nodes)
  {
    NoRetriesInOne(ps);
    OneBatchIffRetriesInOne(ps);
  }

  ghost predicate NonePending(ns: seq<NodeRec>) {
    ns != [] && forall i | 0 <= i < |ns| :: ns[i].phase != NodePending
  }

  lemma PendingOnlyFades(p: Pass, s: Status, i: nat)
    requires StatusOk(s) && i < |s.nodes|
    ensures |NodesAfter(p, s)| == |s.nodes|
    ensures NodesAfter(p, s)[i].phase == NodePending ==> s.nodes[i].phase == NodePending
  {
    if RunsBatch(p, s) {
      BatchKeepsNodes(p, PolicyOf(p), s);
    }
  }

  lemma NonePendingKept(p: Pass, s: Status)
    requires StatusOk(s) && NonePending(s.nodes)
    ensures NonePending(NodesAfter(p, s))
  {
    PendingOnlyFades(p, s, 0);
    forall i | 0 <= i < |s.nodes| ensures NodesAfter(p, s)[i].phase != NodePending {
      PendingOnlyFades(p, s, i);
    }
  }

  /** A request is retried only when none of its nodes is pending, and from then on none ever is. */
  lemma {:induction false} NoPendingOnceRetried(w: World, p: Pass, ps: seq<Pass>)
    requires StatusOk(w.status) && Retries(p, w.status)
    ensures NonePending(w.status.nodes) && NonePending(RunFrom(Next(w, p), ps).status.nodes)
    decreases |ps|
  {
    if ps == [] {
      PassNodes(p, w.status);
      NonePendingKept(p, w.status);
    } else {
      var n := |ps| - 1;
      var s := RunFrom(Next(w, p), ps[..n]).status;
      NoPendingOnceRetried(w, p, ps[..n]);
      PassKeepsStatus(p, w.status);
      StatusOkFrom(Next(w, p), ps[..n]);
      PassNodes(ps[n], s);
      NonePendingKept(ps[n], s);
    }
  }
}
