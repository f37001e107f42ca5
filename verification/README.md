# Node maintenance orchestrator: a verified model

The orchestrator drains cluster nodes for maintenance. A *maintenance request* names nodes, a strategy and approval
rules; a controller takes it through ten request phases and each of its nodes through eleven node phases (cordon,
drain, post-check, uncordon or replace), one short *pass* at a time. Between passes users pause, resume, cancel,
approve, reject and edit the spec, other requests run, API calls fail, and status writes get lost.

This project models that controller and the packages it rests on (planner, policy, preflight, window, approval,
state machine, executor) and proves what holds over whole runs: approvals cannot be skipped, drains stay under the
cap, no node is left cordoned, the static check before the run bounds what the run does, every replaced node is paid
for by a new one, the machine makes progress and stops, and a cron window is open exactly when its definition says so.

`dafny verify dfyconfig.toml` checks everything.

## How it is built

* `Api.dfy` holds the data. `Controller.dfy` is the controller as it works: a class `Request` whose status fields and
  array of node records are updated in place by methods with the same branches and loops as the original. Every method
  is proved equal to a function of `NodeMachine.dfy` (one node, one batch) or `Passes.dfy` (one pass), and
  `Request.Reconcile` is proved to be exactly one step `Next` of the runs below.
* A `Pass` carries everything a pass reads: the spec as it is then, the policy, the clock, what the others have in
  flight, and an answer for every call, errors included. Any pass may follow any other, so a theorem about all
  sequences of passes covers every user edit and every failure. When `writeOk` is false the status write is lost while
  the calls made have happened.
* A `World` is the stored status, the trace of calls made, and the set of nodes the request may have left
  unschedulable. A cordon counts as soon as it is called, even if it reports an error; an uncordon only when it reports
  success. `Run(ps)` is the world after the passes `ps`.
* `Invariant.dfy` states what every stored status satisfies and `PassFacts.dfy` takes a pass apart; the theorems are in
  `Journal.dfy`, `Evictions.dfy`, `Gates.dfy`, `Guards.dfy`, `Lifecycle.dfy`, `Cordons.dfy`, `Stranding.dfy`, `Caps.dfy`,
  `Starting.dfy`, `PreflightSound.dfy`, `PreflightExact.dfy`, `Replacement.dfy` and `Progress.dfy`.
* `NodeOutcomes.dfy` and `RequestOutcomes.dfy` say phase by phase when exactly a pass moves a node or a request, and where
  to, in terms of the fields it reads and not of the functions that compute it; `Admission.dfy` and `Table.dfy` draw the
  conclusions for all runs and for the table of transitions.
* `Solo.dfy`, `Exceptions.dfy`, `CapBroken.dfy`, `Twins.dfy`, `BlockedRuns.dfy`, `Unpaid.dfy` and `Unchecked.dfy` build runs
  from scratch, with passes in the order of the clock, on which claims one might make fail.
* Lemmas that Dafny would prove by induction of its own carry `{:induction false}`: every induction is the one written.
* `Window.dfy`, `Planner.dfy`, `Policy.dfy`, `Approval.dfy`, `Executor.dfy` and `Preflight.dfy` hold the algorithms of the
  packages of the same name, as methods with their loops, and what is proved about them.

## Where the obvious claim is false

* **Cluster-wide cap.** A retry puts every blocked node back to draining with no look at budget, concurrency or window.
  The cap holds at every moment of a schedule if and only if each stored retry fits when it happens
  (`Caps.CapHoldsIffRetriesFit`); `CapBroken.RetryBreaksCap` is a run of two requests that ends with two drains under a cap
  of one. The field's documentation (`api/v1alpha1/maintenancepolicy_types.go:20-25`) promises a strict cap with one
  reconcile worker.
* **One zone at a time.** The design document (`docs/DESIGN.en.md:280`) says never two zones at once. That holds at every
  moment of a run if and only if each stored retry finds all blocked nodes in one batch (`Caps.OneBatchIffRetriesInOne`),
  so up to the first retry (`Caps.OneBatchAtATime`), and every plan of several batches has a run on which it does not
  (`BlockedRuns.RetryMixesBatches`, for two zones `BlockedRuns.TwoZonesAtOnce`).
* **Preflight with uncordon.** The check counts only the concurrency of a request that returns its nodes, which
  `internal/preflight/preflight.go:270-275` says the executor enforces. A blocked node stays cordoned and does not count:
  for a target with distinct node names, the limit holds on every run of a request that may execute if and only if the same
  target passes the check without uncordon (`PreflightExact.LimitHoldsIff`). The run that exceeds the limit keeps every term
  of the request, but for timeouts of its own; `PreflightExact.BlockedNodeExceedsLimit` is one of two nodes over a limit of
  one.
* **Evicting from a cordoned node.** An abort that loses its status leaves the next pass evicting from a node just
  uncordoned (`Exceptions.EvictsUncordoned`; whenever it happens, `Evictions.LostAbortExposes`). Over distinct node names an
  evicted node is certain to be cordoned if and only if no pass so far has aborted, lost its status, and released the node
  after its record had left Cordoning (`Evictions.EvictedIsCordonedIffNotReleased`; in terms of the calls,
  `Evictions.EvictedIsCordonedIff`), so always when no abort loses its status (`Evictions.EvictedIsCordoned`).
  `internal/controller/targets.go:42-60` keeps a node named twice; then it goes wrong without any abort
  (`Twins.EvictsReturned`).
* **Window.** A closed window only holds back starts. Of a single pass that is not so: an open window can end the visit at a
  failed lookup for a start, a closed one cannot (`Starting.ClosedWindowIff`, `Starting.OpenWindowCanHoldUp`). It takes a
  pending node ahead of one in flight in its batch, which no run reaches, so on every run the claim holds
  (`Starting.WindowOnlyGatesStarts`).
* **Transition table.** `README.en.md:302` says transitions are validated in the state machine package; the controller
  never calls it. All its assignments obey the table all the same (`Lifecycle.PassRefinesTable`), and it takes every entry
  but four (`Table.TableIsExact`), but the stored phase can go from Pending to Planned, which is not in the table (`Exceptions.PendingIsPlanned`).
  `Lifecycle.PendingLeavesTableIff` says exactly when that happens, and `Lifecycle.StoredChangeRefinesTable` that nothing
  worse does.
* **Stranded nodes.** Rejecting the uncordon gate leaves the drained nodes cordoned, on purpose (`Gates.RejectionEnds`, a
  run in `Exceptions.RejectionStrands`); every other ending leaves none (`Cordons.NoStrandedNodes`). Over distinct names and
  with no abort lost this is exact: a request that returns its nodes leaves none cordoned at its end if and only if it does
  not end by that rejection (`Stranding.StrandsIffRejected`). A replacement request that fails can leave some (a node without
  a Machine, `Exceptions.FailedReplacementStrands`), one that completes leaves none (`Stranding.CompletedLeavesNone`); on any
  run a node past its cordon stays cordoned if and only if it was never seen gone (`Stranding.ReplacementStrandsIff`).
* **Uncordon gate.** `docs/DESIGN.en.md:415-417` says uncordon only after a post-check or an explicit policy. A user's
  cancel and a failure uncordon at once, without asking the gate (`Exceptions.CancelBypassesGate`): a pass does so if and only
  if what it reads aborts the request, by a cancel, an unreadable policy or the global timeout, and a record may be cordoned
  (`Guards.AbortsIff`, `Guards.AbortUncordonIff`). Nor does the step of a node that is uncordoning look at the gate: a pass
  uncordons by a step if and only if it comes to such a record (`Guards.StepUncordonIff`), also when the approval has been
  rejected since (`Exceptions.RevokedStillUncordons`). There are no other uncordons (`Gates.PassEvents`). Likewise decisions
  on the drain gate change nothing once the request is planned (`Guards.DrainDecisionComesTooLate`).
* **New nodes for old.** With concurrency c, k completed replacements need k / c new Ready nodes only up to the first retry
  (`Replacement.PaidForByConcurrency`): with concurrency one, two nodes that block and are retried share one new node
  (`Unpaid.OneNewForTwo`). On every run the bound holds for the largest number ever in flight
  (`Replacement.ReplacementsArePaidFor`).
* **Checks.** `docs/DESIGN.en.md:271` has the checks of an advisory request evaluated over and over. They are made while
  validating and never once the request is planned, though the target is read anew at every pass until the start: a request
  goes on to its nodes only after checks it passed (`Admission.AdmittedFirst`), perhaps on another target
  (`Admission.StartChecksNothing`, a run in `Unchecked.StartsUnchecked`).
* **Modes.** The mode is decisive only while validating, and for Advisory when planned. An advisory request edited to
  DryRun once planned executes (`Gates.ModeIsNotCheckedAgain`, a run in `Exceptions.EditedModeExecutes`); with the mode
  fixed neither ever mutates.
* **Percentage cap.** The product of scope size and percentage is a 32-bit one. The limit is right if and only if the
  product fits or the count cap decides anyway (`Policy.MaxUnavailableIsLargestIff`; `Policy.WrappedLimit` is a scope where
  it is not).
* **Cron steps.** The loop over a field adds the step in 64 bits. A field holds exactly what its text selects if and only if
  no such sum wraps (`Window.HoldsIffSelected`); `Window.MisreadField` is an accepted minute field with a minute too many.

## Model

| member | source | states |
|---|---|---|
| Controller.Request.constructor | internal/controller/maintenancerequest_controller.go:75-79 | a request starts as nobody has looked at it: no phase, no records, no calls |
| Controller.Request.Reconcile | internal/controller/maintenancerequest_controller.go:64-126 | a pass over the mutable request is exactly one `Next` step of the runs: store, trace and cordoned nodes, with the store untouched when the write is lost |
| Controller.Request.Dispatch | internal/controller/maintenancerequest_controller.go:109-125 | each phase is handled by its own step, and the outcome is that of the specification |
| Controller.Request.ReconcileValidating | internal/controller/phases.go:24-114 | resolution, preflight, planning and routing, with their errors and the in-memory Validating phase, give the specified outcome |
| Controller.Request.ReconcileAwaitingApproval | internal/controller/phases.go:117-150 | waiting at a gate moves on, cancels or stays as the verdict demands |
| Controller.Request.ReconcilePlanned | internal/controller/phases.go:153-210 | re-planning, the advisory stop, the window and the start give the specified outcome |
| Controller.Request.ReconcilePaused | internal/controller/phases.go:213-225 | a paused request stays until the pause clears and then takes the phase it resumes into |
| Controller.Request.ReconcileBlocked | internal/controller/phases.go:229-268 | a blocked request fails on timeout, retries its blocked nodes, or validates again |
| Controller.Request.RetryBlocked | internal/controller/phases.go:236-248 | the in-place loop puts back exactly the blocked records, leaves the others alone and counts what it put back |
| Controller.Request.ReconcileExecuting | internal/controller/execute.go:26-116 | timeout, missing plan, failure threshold, uncordon gate, budget, visit and conclusion give the specified outcome |
| Controller.Request.VisitBatch | internal/controller/execute.go:93-106 | the loop with its early error return leaves records, counter and calls as a fold of single steps over the batch does |
| Controller.Request.StepNode | internal/controller/execute.go:119-299 | one step changes its own record only, moves the counter and makes the calls the node machine prescribes |
| Controller.Request.CompleteExecution | internal/controller/execute.go:302-324 | with nothing left to do a request fails, blocks or completes by its failed and blocked nodes |
| Controller.Request.InitNodeStatuses | internal/controller/execute.go:328-341 | the nested loops make one pending record per planned node, in plan order |
| Controller.Request.RecomputeSummary | internal/controller/execute.go:343-364 | the running counters equal the independent counts of the records by phase |
| Controller.Request.LowestOpenBatch | internal/controller/execute.go:368-381 | the scan gives the batch that `NodeMachine.CurrentBatchIsLeast` characterises |
| Controller.Request.CountInFlight | internal/controller/execute.go:383-393 | the loop counts exactly the records in one of the six working phases |
| Controller.Request.AnyNodeAtPostCheck | internal/controller/execute.go:475-482 | true exactly when some record is at post-check |
| Controller.Request.ReleaseCordonedNodes | internal/controller/execute.go:448-473 | an abort tries to uncordon every node it may have cordoned, in order, errors notwithstanding, and only if nodes are to be returned |
| Controller.Request.Limit | internal/controller/execute.go:80-91 | the limit is the request's own concurrency or, if less, what the policy's cap leaves beside the others |
| Controller.GlobalDrainsInFlightExcept | internal/controller/maintenancerequest_controller.go:208-222 | the sum equals the total load of all unfinished requests less this one's |
| NodeMachine.CurrentBatchIsLeast | internal/controller/execute.go:366-381 | the current batch is the least batch with a node that is not terminal, and -1 exactly when there is none |
| NodeMachine.SummaryAddsUp | internal/controller/execute.go:343-364 | the parts of every summary sum to its total |
| NodeMachine.SteppedOnce | internal/controller/execute.go:93-106 | in one visit each record is untouched or moves by exactly one step, and only in the current batch |
| Invariant.StatusAlwaysOk | internal/controller/execute.go:343-430 | on every run the stored status is well formed: summary is the recount, a node is terminal exactly when it has an end time, in-flight nodes have a start time, only blocked and failed nodes a reason, a drained node no pods left, and phase, gate, plan and records agree |
| Invariant.PassKeepsStatus | internal/controller/maintenancerequest_controller.go:64-126 | any pass, with any spec, policy and answers, keeps that invariant |
| Invariant.PlanRecords | internal/controller/phases.go:194-206 | the records execution starts with are pending and are the target's nodes, as a multiset |
| PassFacts.PassCalls | internal/controller/maintenancerequest_controller.go:64-126 | the calls of every pass are a gate evaluation, then the steps of the batch, then the abort uncordons, and no others |
| PassFacts.PassNodes | internal/controller/phases.go:24-268 | a pass changes records only by a visit, a start or a retry |
| Journal.EveryCallJustified | internal/controller/execute.go:129-261 | on every run nothing is cordoned before the drain gate was cleared, evicted before a successful cordon of that node, or uncordoned or replaced by a step before a round found no blocking pod |
| Journal.DrainGateNotBypassed | internal/controller/phases.go:83-106 | a request is planned, executing or has records only after an evaluation found the drain gate approved or not required, whatever is paused, resumed or edited |
| Admission.DrainNeedsApproval | internal/controller/phases.go:83-106 | where the approval policy in effect - the request's own, or else the default - always asks for approval before the drain, a request is planned, executing or has records only after a pass read and noted an approval in force |
| Admission.AdmittedFirst | internal/controller/phases.go:30-69 | a request is planned, waits at the drain gate, executes or has records only after a pass that read a target with nothing missing, no other check failed and the unavailability within the limit |
| Admission.StartChecksNothing | internal/controller/phases.go:153-210 | a pass over a planned request does the same whatever is missing from the target and whatever the checks would say |
| Unchecked.StartsUnchecked | internal/controller/phases.go:153-210 | a run that executes on a target that fails the checks |
| Admission.CordonedWasChosen | internal/controller/execute.go:129-163 | every cordon comes after a pass that came to the pending node with the window open and the caps leaving room, and whose lookup found it, not managed by the Machine Config Operator and not at the version named then |
| NodeOutcomes.PendingOutcome | internal/controller/execute.go:130-155 | a pending node the visit comes to stays without room; with room it starts if and only if it is found, not managed by the Machine Config Operator and not at the version named, stays with an error if and only if the lookup fails, and is skipped otherwise |
| NodeOutcomes.CordoningOutcome | internal/controller/execute.go:157-163 | a cordoning node is cordoned, and drains from then on if and only if the call succeeds |
| NodeOutcomes.DrainingOutcome | internal/controller/execute.go:165-197 | a draining node gets a round, is drained if and only if no pod is left, blocked if and only if pods are left past the drain timeout - the request's own, or else the configured one -, with the reason and the pod counts of the round |
| NodeOutcomes.PostCheckOutcome | internal/controller/execute.go:199-217 | a drained node is replaced, done or uncordoned next by the upgrade terms and the uncordon setting, and never while the gate withholds it |
| NodeOutcomes.UncordoningOutcome | internal/controller/execute.go:219-227 | an uncordoning node is uncordoned, and completed if and only if the call succeeds |
| NodeOutcomes.ReplacingOutcome | internal/controller/execute.go:229-261 | a node to be replaced notes the Ready count, fails if and only if it has no Machine, and waits if and only if that is deleted |
| NodeOutcomes.AwaitingOutcome | internal/controller/execute.go:263-294 | a waiting node is completed if and only if it is gone and, with a version named, more nodes are Ready at it than noted; else blocked if and only if drain and replacement timeouts together have passed |
| NodeOutcomes.VisitLeavesAndEnds | internal/controller/execute.go:93-106 | a visit leaves every node it does not come to as it is, and a node that ends in it ends at its time |
| NodeOutcomes.SummaryCounts | internal/controller/execute.go:343-364 | on every run the stored summary is the sizes of the sets of nodes by phase |
| RequestOutcomes.FirstOutcome | internal/controller/maintenancerequest_controller.go:81-107 | first look, finished, cancel, pause and policy come before the phase, in this order and with these effects |
| RequestOutcomes.ValidationOutcome | internal/controller/phases.go:24-114 | a request is blocked if and only if the checks give a verdict and names are missing, another check fails, or a cap is set and the nodes down with those it takes down exceed the limit; and exactly when it fails, completes, is planned, cancelled, waits or stays with an error |
| RequestOutcomes.WaitOutcome | internal/controller/phases.go:117-150 | a waiting request goes on if and only if its gate no longer withholds it, is cancelled if and only if it is refused, and else stays |
| RequestOutcomes.PlannedOutcome | internal/controller/phases.go:153-210 | a planned request executes, completes, fails or stays exactly by target, mode and window |
| RequestOutcomes.PlanTerms | internal/planner/planner.go:43-112 | the plan of a pass: strategy, node count, effective concurrency and batch size from the terms of request and policy |
| RequestOutcomes.ExecutingOutcome | internal/controller/execute.go:26-116 | an executing request fails at once if and only if its time is over or as many nodes have failed as the policy's threshold, at least one; else it waits if and only if the gate holds a drained node back; else it ends when all nodes are done, by failed and blocked ones |
| RequestOutcomes.BlockedOutcome | internal/controller/phases.go:229-268 | a blocked request fails if and only if its time is over; else it is validated again without records and otherwise puts exactly its blocked nodes back, with a fresh start |
| RequestOutcomes.RetryGivesTime | internal/controller/phases.go:238-248 | no pass blocks a retried node again within the drain timeout after the retry |
| RequestOutcomes.PausedOutcome | internal/controller/phases.go:213-225 | a paused request resumes at its gate, its records, its plan or validation, in this order |
| RequestOutcomes.CompletionTime | internal/controller/maintenancerequest_controller.go:239-303 | on every run a request has a completion time exactly once it is over, and it is the time of a pass |
| Journal.DrainedMeansEmpty | internal/controller/execute.go:181-185 | a node past draining was seen empty by an eviction round, on every run |
| Evictions.EvictedIsCordonedIff | internal/controller/execute.go:157-170 | over targets with distinct names an evicted node is certain to be cordoned if and only if each abort uncordon of it has been followed by a cordon |
| Evictions.EvictedIsCordonedIffNotReleased | internal/controller/maintenancerequest_controller.go:259-303 | over targets with distinct names a node evicted from by a pass is certain to be cordoned as the pass begins if and only if no earlier pass aborted with its status lost and released the node after its record had left Cordoning |
| Evictions.EvictedIsCordoned | internal/controller/maintenancerequest_controller.go:259-303 | when no abort loses its status every evicted node is certain to be cordoned |
| Evictions.LostAbortExposes | internal/controller/maintenancerequest_controller.go:104-107 | after any lost abort of a request that returns its nodes - cancel, unreadable policy or global timeout - the next pass that reaches a draining node evicts from it though it has been uncordoned |
| Evictions.MustBeMeans | internal/executor/executor.go:66-84 | a node is certain to be cordoned exactly when some successful cordon has not been followed by an attempt to uncordon |
| Exceptions.EvictsUncordoned | internal/controller/maintenancerequest_controller.go:104-107 | a run from scratch: an abort loses its status and the next pass evicts from a schedulable node |
| Exceptions.EvictsCordonedAgain | internal/controller/execute.go:157-163 | a run on which an eviction follows an abort uncordon of its node and the node has been cordoned again in between |
| Twins.EvictsReturned | internal/controller/targets.go:42-60 | a run over a node named twice: one record uncordons it, the other evicts from it in the same pass |
| Gates.PassEvents | internal/controller/execute.go:448-473 | every noted verdict is the one for the spec and policy read; abort uncordons occur only on failure and user cancel; anything else touches nodes only in the visit of a batch |
| Gates.UncordonNeedsApproval | internal/controller/execute.go:49-63 | where the uncordon gate is always required, each step uncordon comes after an evaluation that found it approved |
| Guards.StepUncordonIff | internal/controller/execute.go:219-227 | a pass uncordons a node by a step if and only if its visit comes to a stored Uncordoning record of the node, whatever the verdict on the gate |
| Guards.DrainDecisionComesTooLate | internal/controller/phases.go:153-268 | passes over a planned, executing, paused or blocked request that differ only in the recorded decisions have the same outcome, as long as an executing one reads the same verdict on the uncordon gate |
| Guards.AbortsIff | internal/controller/maintenancerequest_controller.go:93-107 | a pass over records with no replacement aborts if and only if it reads a cancel, or, unless a pause comes first, an unreadable policy or a passed global timeout while executing or blocked |
| Guards.AbortUncordonIff | internal/controller/execute.go:434-473 | such a pass uncordons a node outside a step if and only if it aborts a request that returns its nodes and a record of the node may be cordoned: no gate is asked |
| Exceptions.RevokedStillUncordons | internal/controller/execute.go:219-227 | a run on which the gate is approved and then rejected, and the last pass notes the rejection and uncordons the node |
| Gates.RejectionEnds | internal/controller/phases.go:132-137 | the pass that sees a rejection touches no node, leaves the cordoned nodes as they are, and no call follows it |
| Gates.RejectionStands | internal/controller/phases.go:132-137 | while a rejection stands no node is touched, through lost writes, pauses and resumes |
| Gates.OnlyStartsMutate | internal/controller/phases.go:194-209 | until some pass starts execution there are no records, no calls on nodes and no execution |
| Gates.StartsMutate | internal/controller/phases.go:194-209 | a start whose write is stored leaves an executing request with one record per target node |
| Gates.AdvisoryNeverMutates | internal/controller/phases.go:166-173 | an advisory request never executes, has no records and only evaluates gates |
| Gates.DryRunNeverMutates | internal/controller/phases.go:76-80 | a dry run has an empty trace and never reaches Planned, Executing or AwaitingApproval |
| Gates.ModeIsNotCheckedAgain | internal/controller/phases.go:166-201 | once planned, a dry-run pass does exactly what an execute pass does |
| Exceptions.EditedModeExecutes | internal/controller/phases.go:166-201 | a run of an advisory request, edited to a dry run, that executes |
| Exceptions.CancelBypassesGate | internal/controller/maintenancerequest_controller.go:93-97 | a run on which a cancel uncordons a drained node while the required gate has never been approved |
| Exceptions.RejectionStrands | internal/controller/phases.go:132-137 | a run that ends rejected with every call answered and its node cordoned |
| Exceptions.FailedReplacementStrands | internal/controller/execute.go:244-256 | a run of a replacement request that fails for want of a Machine and leaves its node cordoned |
| Lifecycle.PassRefinesTable | internal/statemachine/statemachine.go:15-130 | every assignment of a phase is allowed by the table after the one before it, from any status |
| Lifecycle.StoredChangeRefinesTable | internal/statemachine/statemachine.go:15-130 | a stored change is one table step or two through Validating; Pending to Planned is only the latter |
| Lifecycle.PendingLeavesTableIff | internal/controller/phases.go:24-114 | a pending request's stored change is missing from the table if and only if its pass takes it past Validating without error, failure or rejection |
| Exceptions.PendingIsPlanned | internal/controller/phases.go:24-114 | a run on which the stored phase goes from Pending to Planned in one pass |
| Lifecycle.EntriesNeverTaken | internal/statemachine/statemachine.go:15-75 | four entries of the table are never used from a reachable status |
| Table.TableIsExact | internal/statemachine/statemachine.go:15-130 | some pass over a well-formed status assigns one phase directly after another if and only if the table has the pair and it is none of those four |
| Lifecycle.FinishedForGood | internal/controller/maintenancerequest_controller.go:89-91 | terminal phases are absorbing: no later pass changes status, trace or nodes |
| Lifecycle.PauseAndResume | internal/controller/phases.go:278-289 | a pause of any length, once resumed, gives back the same status for planned, executing and awaiting requests, gate included, and the retry or re-validation for blocked ones |
| Lifecycle.StartCoversTarget | internal/controller/phases.go:194-206 | execution starts with exactly the resolved target, as a multiset, all pending |
| Lifecycle.RecordsAreThePlan | internal/controller/execute.go:328-341 | on every run the records are the flattening of the stored plan's batches |
| Lifecycle.RecordsKeepTheirNodes | internal/controller/phases.go:194-196 | from the first record on, nodes and batches never change |
| Lifecycle.CompletedMeansDone | internal/controller/execute.go:302-323 | a completed request skipped or completed every node, each completed one after a round that found it empty |
| Cordons.CallsAreWrittenAhead | internal/controller/execute.go:93-106 | every cordon, eviction, replacement and step uncordon is on a node stored, when the pass began, in exactly the phase that announces it |
| Cordons.UnschedulableIsAccounted | internal/controller/execute.go:432-442 | every node the request may have left unschedulable has a record in flight, blocked or failed, lost writes included |
| Cordons.NoStrandedNodes | internal/controller/execute.go:434-473 | a request that returns its nodes and whose abort uncordons are answered leaves none unschedulable when it ends, but for a rejected uncordon gate |
| Stranding.StrandsIffRejected | internal/controller/execute.go:434-473 | over distinct names, with the abort uncordons answered and no abort lost, an ended request that returns its nodes leaves none unschedulable if and only if it did not end by a rejection of the uncordon gate |
| Stranding.CompletedLeavesNone | internal/controller/execute.go:302-324 | a completed request that returns or replaces its nodes leaves none unschedulable, lost writes included |
| Stranding.ReplacementStrandsIff | internal/controller/execute.go:229-294 | in a replacement request over distinct names a node past its cordon is unschedulable if and only if it has never been seen gone, whatever is blocked or retried |
| Stranding.UnreplacedIsCordoned | internal/controller/execute.go:229-294 | before a retry, a node of such a request that is draining, drained, being replaced or failed is unschedulable |
| Caps.LoopCounts | internal/controller/execute.go:80-106 | through every branch of every step the running counter equals the number of records in flight and never exceeds both its start and the limit |
| Caps.OwnConcurrency | internal/policy/policy.go:187-196 | up to its first retry a request has at most its effective concurrency in flight |
| Caps.ClusterWideCap | internal/controller/maintenancerequest_controller.go:203-222 | for any number of requests and any interleaving of atomic passes the nodes in flight over all unfinished requests stay within the cap, up to the first retry |
| CapBroken.RetryBreaksCap | internal/controller/phases.go:238-248 | a run from scratch of two requests under a cap of one, on one clock: no retry and one node in flight, then a retry and two |
| Caps.CapHoldsIffRetriesFit | internal/controller/maintenancerequest_controller.go:203-222 | at every moment of any schedule the total is within the cap, if and only if each stored retry leaves room for its blocked nodes when it happens |
| Caps.RetryKeepsCapIff | internal/controller/phases.go:238-248 | a stored retry keeps the cap if and only if the others' load and its blocked nodes fit under it |
| Caps.StartDiscipline | internal/controller/execute.go:130-155 | a node leaves Pending only when all lower batches are terminal, the window is open and fewer nodes than the budget are in flight |
| Starting.WindowOnlyGatesStarts | internal/controller/execute.go:65-73 | on every run, closing the window changes nothing of what any further pass does to a node in flight |
| Starting.ClosedWindowIff | internal/controller/execute.go:93-106 | on any status, it changes nothing for such a node if and only if no start ahead of it is refused by a failed lookup, or the node would not have moved anyway |
| Starting.OpenWindowCanHoldUp | internal/controller/execute.go:130-143 | a well-formed status, not reached by runs, on which an open window keeps a drained node from its post-check and a closed one does not |
| Starting.AlwaysInOrder | internal/controller/execute.go:93-106 | on every run, within a batch, behind a pending node all are pending |
| Caps.OneBatchIffRetriesInOne | internal/controller/execute.go:366-381 | at every moment of a run all nodes in flight are in the current batch, if and only if each stored retry finds its blocked nodes in one batch |
| Caps.OneBatchAtATime | internal/controller/execute.go:366-381 | up to the first retry all nodes in flight are in the current batch |
| Caps.RetryKeepsOneBatchIff | internal/controller/phases.go:238-248 | a retry keeps that if and only if all blocked nodes are in one batch |
| BlockedRuns.BlockedRun | internal/controller/execute.go:186-196 | every request that passes its checks has a run without retries on which all its nodes block and stay cordoned |
| BlockedRuns.RetryMixesBatches | internal/controller/phases.go:238-248 | every plan of several batches has a run whose retry puts nodes of two batches in flight at once |
| BlockedRuns.TwoZonesAtOnce | internal/controller/phases.go:238-248 | a run of a request by zone whose retry drains two zones at once |
| Caps.NoPendingOnceRetried | internal/controller/phases.go:235-248 | when a request is retried no node is pending, and none ever is again |
| PreflightSound.UnavailabilityBound | internal/preflight/preflight.go:279-324 | the scope's unschedulable nodes never exceed those that were so before plus the nodes in flight, blocked or failed, on every run |
| PreflightSound.PreflightSoundWithoutUncordon | internal/preflight/preflight.go:279-324 | without uncordon, no run of a request that passed the check ever takes the scope over the limit |
| PreflightSound.PreflightSoundWithUncordon | internal/preflight/preflight.go:279-324 | with uncordon, no run without a retry takes the scope over the limit at a moment when no node is blocked or failed |
| PreflightExact.WithinLimit | internal/preflight/preflight.go:276-324 | if the target passes the check without uncordon, every run stays within the limit, whatever blocks, fails or is retried |
| PreflightExact.ExceedsLimit | internal/preflight/preflight.go:270-275 | if it does not and the request may execute, a run on which nodes block, with no retry and no edit but of timeouts of its own, takes the scope over the limit though the request passed its own check |
| PreflightExact.LimitHoldsIff | internal/preflight/preflight.go:270-324 | so for a checked request the limit holds on every run with its terms if and only if it may not execute or the target passes the check without uncordon |
| PreflightExact.BlockedNodeExceedsLimit | internal/preflight/preflight.go:270-275 | two nodes one at a time under a limit of one: the check passes and a run makes both unschedulable |
| PreflightSound.CordonsNeedRecords | internal/controller/phases.go:194-206 | nothing is cordoned before there are records, and so a checked plan |
| Replacement.ReplacementsArePaidFor | internal/controller/execute.go:229-294 | if the Ready count at the target version never shrinks, k completed replacements need at least k / c new Ready nodes, c being the largest number ever in flight, retried nodes included |
| Replacement.PaidForByConcurrency | internal/controller/execute.go:229-294 | up to the first retry the effective concurrency will do for c |
| Unpaid.OneNewForTwo | internal/controller/phases.go:238-248 | a run under a concurrency of one that completes two replacements while one new node becomes Ready |
| Replacement.SerialReplacementsOneForOne | internal/controller/execute.go:229-294 | with one node at a time each completed replacement has its own new Ready node |
| Progress.PassLowersRank | internal/controller/execute.go:129-298 | an executing pass never raises the sum of node ranks and lowers it exactly when some node changes phase |
| Progress.ChangesAreBounded | internal/controller/execute.go:129-298 | between retries stored phases change at most six times per node |
| Progress.NoStall | internal/controller/execute.go:26-116 | with window, budget and answers in order, a pass that visits the batch moves some node unless one of the current batch still waits for its pods or its replacement |
| Progress.DeadlineEnds | internal/controller/execute.go:27-29 | a pass past the global timeout leaves no executing or blocked request |
| Progress.CycleEnds | internal/controller/phases.go:231-260 | with passes at least d apart, at most limit / d + 1 of those that store their status leave the request in the executing and retrying cycle, limit being the global timeout |
| Window.SplitFacts | internal/window/window.go:31 | the parts of a field rejoin to it and hold no separator |
| Window.FieldsAreWords | internal/window/window.go:86-90 | the fields of an expression are its maximal runs of characters that are no spaces, and nothing else |
| Window.ParsePartIff | internal/window/window.go:29-77 | a part is accepted and read as a progression if and only if it is written "*", N or A-B, with or without a step, in decimal numerals in range, and denotes it: N alone is N, N/S runs to the end of the field |
| Window.ParseField | internal/window/window.go:29-84 | an error exactly when some part denotes nothing, as written, else exactly the values that what its parts denote puts in, wrapped sums included |
| Window.AddProgression | internal/window/window.go:79-81 | the loop on a 64-bit counter adds the progression, and for a step that wraps the values it comes down through, and nothing else |
| Window.HoldsIffSelected | internal/window/window.go:29-84 | the values are exactly those the text selects if and only if no step of the field wraps |
| Window.MisreadIff | internal/window/window.go:79-81 | a part puts a value too many into the range of its field exactly when its step wraps and comes back no lower than the minimum |
| Window.MisreadField | internal/window/window.go:79-81 | an accepted minute field that holds minute 1 though it selects only minute 3 |
| Window.ParseCron | internal/window/window.go:86-115 | an error exactly when the five fields are not well formed, else the schedule the text denotes, which `Window.DenotesUnique` shows unique |
| Window.DenotesUnique | internal/window/window.go:86-115 | a text denotes at most one schedule |
| Window.DayRule | internal/window/window.go:117-137 | for a text whose steps fit, a minute matches by the crontab rule for days: either day field suffices when both are restricted, both must accept when one is a literal star (crontab utility, INPUT FILES section, POSIX.1-2017) |
| Window.ScanBack | internal/window/window.go:162-171 | the bounded backward scan finds an opening exactly when one exists at any time in the past |
| Window.IsOpen | internal/window/window.go:148-172 | an error exactly when text, zone or duration is unusable, else open exactly by the unbounded definition |
| Window.NextOpen | internal/window/window.go:175-193 | the least firing minute strictly after now within the lookahead, or an error when the window cannot be read or there is none |
| Window.NextOpenSpan | internal/window/window.go:175-193 | a next opening is a full minute after now, at most 366 days on |
| Window.NextExcludesNone | internal/window/window.go:175-193 | having a next opening and having none exclude each other, so the error is exact |
| Window.ClosedUntilNextOpen | internal/window/window.go:148-193 | a window closed now is closed at every instant before its next opening and open at it |
| Window.ClosedForDays | internal/window/window.go:175-193 | with no next opening a closed window stays closed for 366 days |
| Window.ClosedThroughLookahead | internal/window/window.go:175-193 | with no next opening a closed window stays closed for the whole lookahead |
| Window.AnyOpen | internal/window/window.go:197-211 | the answer is that of the first window that is not closed; no window at all counts as open |
| Window.NextOpenAny | internal/window/window.go:214-231 | the soonest of all next openings; an error when one window has none or there is no window |
| Planner.BuildBatches | internal/planner/planner.go:83-112 | the dispatch over chunking and grouping loops gives the batches that the theorems below are about |
| Planner.Chunk | internal/planner/planner.go:218-236 | the slicing loop gives consecutive numbered pieces of the given size |
| Planner.Group | internal/planner/planner.go:238-261 | the map-building loop gives one sorted batch per key, in key order |
| Planner.SortedNames | internal/planner/planner.go:209-216 | the names in order, each as often as in the input |
| Planner.BatchesPartition | internal/planner/planner.go:83-112 | for every strategy the batches are numbered from 0, non-empty, sorted - all together too, unless they are groups -, and hold each node exactly as often as the target |
| Planner.StrLtMeans | internal/planner/planner.go:209-216 | the order of names is that of the dictionary: the first difference decides, and a prefix comes first |
| Planner.BatchShapes | internal/planner/planner.go:218-261 | chunks have the size named, or else the concurrency, but for the last; groups strictly increasing keys, serial batches one node |
| Planner.ZonesAre | internal/planner/planner.go:95-101 | a batch by zone holds each name exactly as often as nodes with that name are in the zone it is named after, nodes without a zone under "unzoned" |
| Planner.PoolsAre | internal/planner/planner.go:102-108 | the same by pool, nodes without one under "unpooled" |
| Planner.ZoneTogetherIff | internal/planner/planner.go:95-101 | over distinct names two nodes share a batch by zone if and only if they are in the same zone |
| Planner.PoolTogetherIff | internal/planner/planner.go:102-108 | over distinct names two nodes share a batch by pool if and only if they are in the same pool |
| Planner.BatchesOrderFree | internal/planner/planner.go:83-112 | any permutation of the nodes gives the same batches |
| Policy.MaxUnavailableIsLargest | internal/policy/policy.go:160-178 | while the product fits 32 bits the limit is the largest number within every configured cap, or 1 |
| Policy.MaxUnavailableIsLargestIff | internal/policy/policy.go:160-178 | with any caps it is so if and only if the product fits or the count cap is no larger than the wrapped percentage cap |
| Policy.WrappedLimit | internal/policy/policy.go:166-172 | a scope of 42949673 nodes, all of which may be unavailable, gets a limit of one |
| Policy.MaxUnavailableBounds | internal/policy/policy.go:155-178 | the limit always leaves room for one node and never exceeds the scope |
| Approval.DecisionFor | internal/approval/approval.go:50-67 | the newest decision for the gate: a missing time is oldest, the first of equals wins, none only if there is none |
| Approval.InForceIsLatest | internal/approval/approval.go:50-67 | these conditions define one decision |
| Approval.VerdictMeaning | internal/approval/approval.go:71-88 | a gate is not required exactly under the policies that do not ask for it, and approved or rejected exactly by the decision in force, the latest by time and first of equals |
| Approval.NotRequiredIff | internal/approval/approval.go:38-48 | the drain gate is not required if and only if the policy is neither manual before drain nor before both; the uncordon gate if and only if it is neither manual before uncordon nor before both |
| Approval.NewestDecisionWins | internal/approval/approval.go:50-88 | a decision later than all others for its gate decides it |
| StateMachine.TerminalIsAbsorbing | internal/statemachine/statemachine.go:15-130 | the three terminal phases are exactly those with no way out |
| Executor.EvictOnce | internal/executor/executor.go:140-223 | counts are those of the pods by set size, every request is accounted for, and the reason is the worst answer: budget, then error, then stuck pod |
| Preflight.CheckUnavailability | internal/preflight/preflight.go:279-324 | fails exactly when the nodes cordoned already and the peak the request adds exceed the limit |
| Preflight.WindowsOpen | internal/preflight/preflight.go:341-361 | the own window decides if it is closed or unusable, else the first of the policy's windows that is not closed, and with neither the answer is open |

## Left out

- Kubernetes client, caches, optimistic locking: calls are nondeterministic answers and a status write may be lost; a stale read is not modelled.
- Deletion of the request object: a pass over an object being deleted does nothing.
- Overlapping passes over several requests (more than one reconcile worker): the code declares the cap best-effort there; passes are atomic here.
- Target resolution, label selectors, disruption budgets, Machine discovery: the resolved target, the other preflight checks, and replacement and lookup answers are inputs of a pass.
- Pod list of a node: `Executor.EvictOnce` is proved on it, and its result is an input of the pass, as is that of `Preflight.WindowsOpen`.
- Zone data and daylight saving: a zone's calendar is an arbitrary function from absolute minutes to calendar fields, so offsets are whole minutes.
- Clock: one reading per pass, in unbounded nanoseconds; stored times are not cut to whole seconds.
- Integer widths: unbounded, except the product in `MaxUnavailable` and the counter of a cron field.
- Unrecognised node or request phases: the model's phases are those the controller writes.
- Conditions, messages, risk score, impact estimate, headroom check, audit records, metrics, dashboard, configuration loading: nothing that steers the machine.
- Release list: the names to uncordon on abort are not collected before the calls but taken one by one; the calls are the same.
- Long functions: the body of an executing pass, of validation and of the node step are split over several methods of `Controller.Request`.
- Journal.EveryCallJustified: asks for an earlier successful cordon of an evicted node; whether it still is cordoned is the subject of the Evictions module.
- PreflightSound.PreflightSoundWithUncordon: speaks of moments when no node is blocked or failed; what holds on all runs is the subject of the PreflightExact module.
- PreflightExact.LimitHoldsIff: for a request with timeouts of its own the runs may edit these; with both fixed, a global timeout shorter than a few drain timeouts can end the request before enough nodes block.
