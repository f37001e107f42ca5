/** One eviction round on a node. */
module Executor {
  import opened Api

  const STUCK_GRACE_SLACK := 30_000_000_000
  const DEFAULT_GRACE_SECONDS := 30
  const SECOND := 1_000_000_000

  /** The answer to an eviction or deletion request. */
  datatype Removal = Removed | AlreadyGone | DeniedByPDB | RemovalFailed

  /** What the round sees of a pod, and how its removal would be answered. */
  datatype PodView = PodView(
    daemonSet: bool, mirror: bool, terminated: bool, deletedAt: Option<int>, graceSeconds: Option<int>, removal: Removal)

  predicate IsDrainBlocking(p: PodView) {
    !p.daemonSet && !p.mirror && !p.terminated
  }

  predicate TerminatingTooLong(p: PodView, now: int) {
    && p.deletedAt.Some?
    && now > p.deletedAt.value
           + (if p.graceSeconds.Some? then p.graceSeconds.value else DEFAULT_GRACE_SECONDS) * SECOND + STUCK_GRACE_SLACK
  }

  /** The pods the round asks to remove. */
  predicate IsAsked(p: PodView) {
    IsDrainBlocking(p) && p.deletedAt.None?
  }

  predicate IsStuck(p: PodView, now: int) {
    IsDrainBlocking(p) && TerminatingTooLong(p, now)
  }

  /** The positions of the pods that block the drain: those that no daemon set brings back, that are no mirrors of static
    * pods, and that have not ended. */
  ghost function Blocking(pods: seq<PodView>): set<int> {
    set i | 0 <= i < |pods| && !pods[i].daemonSet && !pods[i].mirror && !pods[i].terminated
  }

  /** Those of them that are not being deleted already. */
  ghost function Asked(pods: seq<PodView>): set<int> {
    set i | i in Blocking(pods) && pods[i].deletedAt.None?
  }

  /** Asked pods whose removal went as given. */
  ghost function Answered(pods: seq<PodView>, r: Removal): set<int> {
    set i | i in Asked(pods) && pods[i].removal == r
  }

  /** Those that should have gone: half a minute has passed since the end of their grace, itself half a minute unless set. */
  ghost function Overstaying(pods: seq<PodView>, now: int): set<int> {
    set i | i in Blocking(pods) && pods[i].deletedAt.Some?
            && now > pods[i].deletedAt.value
                     + (if pods[i].graceSeconds.Some? then 1_000_000_000 * pods[i].graceSeconds.value else 30_000_000_000) + 30_000_000_000
  }

  function Classify(blocking: nat, evictable: nat, pdbBlocked: nat, evictErrors: nat, stuck: nat): BlockReason {
    if blocking == 0 then NoReason
    else if pdbBlocked > 0 then BlockPDB
    else if evictErrors > 0 then BlockEvictionError
    else if stuck > 0 then BlockStuckTermination
    else NoReason
  }

  /** The counts are those of the pods, every request made is accounted for once, and the reason names the
    * worst answer: a disruption budget before an error before a stuck pod. A pod already gone is progress. */
  method EvictOnce(pods: seq<PodView>, now: int) returns (res: EvictResult)
    ensures res.blocking == |Blocking(pods)|
    ensures res.evictable == |Asked(pods)|
    ensures res.evicted == |Answered(pods, Removed)| + |Answered(pods, AlreadyGone)|
    ensures res.evictable - res.evicted == |Answered(pods, DeniedByPDB)| + |Answered(pods, RemovalFailed)|
    ensures res.evicted <= res.evictable <= res.blocking
    ensures res.reason == BlockPDB <==> Answered(pods, DeniedByPDB) != {}
    ensures res.reason == BlockEvictionError <==> Answered(pods, DeniedByPDB) == {} && Answered(pods, RemovalFailed) != {}
    ensures res.reason == BlockStuckTermination <==>
            Answered(pods, DeniedByPDB) == {} && Answered(pods, RemovalFailed) == {} && Overstaying(pods, now) != {}
    ensures res.reason in {NoReason, BlockPDB, BlockEvictionError, BlockStuckTermination}
  {
    var blocking, evictable, evicted: nat := 0, 0, 0;
    var pdbBlocked, evictErrors, stuck: nat := 0, 0, 0;
    ghost var removed, gone := 0, 0;
    for i := 0 to |pods|
      invariant blocking == |Blocking(pods[..i])| && evictable == |Asked(pods[..i])|
      invariant removed == |Answered(pods[..i], Removed)| && gone == |Answered(pods[..i], AlreadyGone)|
      invariant pdbBlocked == |Answered(pods[..i], DeniedByPDB)| && evictErrors == |Answered(pods[..i], RemovalFailed)|
      invariant evicted == removed + gone
      invariant evictable == evicted + pdbBlocked + evictErrors && evictable + stuck <= blocking
      invariant stuck == |Overstaying(pods[..i], now)|
    {
      var pod := pods[i];
      ExtendBlocking(pods, i);
      ExtendAsked(pods, i);
      ExtendAnswered(pods, i, Removed);
      ExtendAnswered(pods, i, AlreadyGone);
      ExtendAnswered(pods, i, DeniedByPDB);
      ExtendAnswered(pods, i, RemovalFailed);
      ExtendOverstaying(pods, i, now);
      if !IsDrainBlocking(pod) {
        continue;
      }
      blocking := blocking + 1;
      if pod.deletedAt.Some? {
        if TerminatingTooLong(pod, now) {
          stuck := stuck + 1;
        }
        continue;
      }
      evictable := evictable + 1;
      match pod.removal {
        case Removed =>
          evicted, removed := evicted + 1, removed + 1;
        case AlreadyGone =>
          evicted, gone := evicted + 1, gone + 1;
        case DeniedByPDB =>
          pdbBlocked := pdbBlocked + 1;
        case RemovalFailed =>
          evictErrors := evictErrors + 1;
      }
    }
    assert pods[..|pods|] == pods;
    res := EvictResult(blocking, evictable, evicted, Classify(blocking, evictable, pdbBlocked, evictErrors, stuck));
  }

  /** One more pod adds itself to the sets it belongs to. */
  lemma ExtendBlocking(pods: seq<PodView>, i: nat)
    requires i < |pods|
    ensures |Blocking(pods[..i + 1])| == |Blocking(pods[..i])| + if IsDrainBlocking(pods[i]) then 1 else 0
  {
    BlockingMore(pods, i, if IsDrainBlocking(pods[i]) then {i} else {});
    assert Blocking(pods[..i]) !! {i};
  }

  lemma BlockingMore(pods: seq<PodView>, i: nat, more: set<int>)
    requires i < |pods| && more == if IsDrainBlocking(pods[i]) then {i} else {}
    ensures Blocking(pods[..i + 1]) == Blocking(pods[..i]) + more
  {
    forall j: int ensures j in Blocking(pods[..i + 1]) <==> j in Blocking(pods[..i]) || j in more {
      if 0 <= j < i {
        assert pods[..i][j] == pods[..i + 1][j];
      }
    }
  }

  lemma ExtendAsked(pods: seq<PodView>, i: nat)
    requires i < |pods|
    ensures |Asked(pods[..i + 1])| == |Asked(pods[..i])| + if IsAsked(pods[i]) then 1 else 0
  {
    AskedMore(pods, i, if IsAsked(pods[i]) then {i} else {});
    assert Asked(pods[..i]) !! {i};
  }

  lemma AskedMore(pods: seq<PodView>, i: nat, more: set<int>)
    requires i < |pods| && more == if IsAsked(pods[i]) then {i} else {}
    ensures Asked(pods[..i + 1]) == Asked(pods[..i]) + more
  {
    forall j: int ensures j in Asked(pods[..i + 1]) <==> j in Asked(pods[..i]) || j in more {
      if 0 <= j < i {
        assert pods[..i][j] == pods[..i + 1][j];
      }
    }
  }

  lemma ExtendAnswered(pods: seq<PodView>, i: nat, r: Removal)
    requires i < |pods|
    ensures |Answered(pods[..i + 1], r)| == |Answered(pods[..i], r)| + if IsAsked(pods[i]) && pods[i].removal == r then 1 else 0
  {
    AnsweredMore(pods, i, r, if IsAsked(pods[i]) && pods[i].removal == r then {i} else {});
    assert Answered(pods[..i], r) !! {i};
  }

  lemma AnsweredMore(pods: seq<PodView>, i: nat, r: Removal, more: set<int>)
    requires i < |pods| && more == if IsAsked(pods[i]) && pods[i].removal == r then {i} else {}
    ensures Answered(pods[..i + 1], r) == Answered(pods[..i], r) + more
  {
    forall j: int ensures j in Answered(pods[..i + 1], r) <==> j in Answered(pods[..i], r) || j in more {
      if 0 <= j < i {
        assert pods[..i][j] == pods[..i + 1][j];
      }
    }
  }

  lemma ExtendOverstaying(pods: seq<PodView>, i: nat, now: int)
    requires i < |pods|
    ensures |Overstaying(pods[..i + 1], now)| == |Overstaying(pods[..i], now)| + if IsStuck(pods[i], now) then 1 else 0
  {
    OverstayingMore(pods, i, now, if IsStuck(pods[i], now) then {i} else {});
    assert Overstaying(pods[..i], now) !! {i};
  }

  lemma OverstayingMore(pods: seq<PodView>, i: nat, now: int, more: set<int>)
    requires i < |pods| && more == if IsStuck(pods[i], now) then {i} else {}
    ensures Overstaying(pods[..i + 1], now) == Overstaying(pods[..i], now) + more
  {
    forall j: int ensures j in Overstaying(pods[..i + 1], now) <==> j in Overstaying(pods[..i], now) || j in more {
      if 0 <= j < i {
        assert pods[..i][j] == pods[..i + 1][j];
      }
    }
  }
}
