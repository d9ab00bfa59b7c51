# Verification model of the evaluation-run service

This Dafny project models the part of the repository that decides what a governed agent run is worth, and proves what its
callers rely on. `dafny verify dfyconfig.toml` checks all of it.

**The run protocol.** One evaluation run is a row that telemetry gateways, API completions and cancellations, and workers with
leased jobs read and swap concurrently (`RunDomain`, `RunStore`, `RunProtocol`). Every repository call is one atomic step of a
process; `RunProtocol.Advance` is that step for every use case. Processes interleave arbitrarily and may crash between any two
calls. `RunInvariant` proves the invariant, `RunSafety` what it means for whole runs, `RunStamps` how far the compare-and-swap
on `(state, updated_at)` carries, `RunTimes` when row and evidence show one time. `EvidenceLaws`, `RunScoring` and
`RunCompletion` say over whole schedules what the evidence holds, which rules score a run, and who completed it as what.
`RunSession` holds the use cases as code (a loaded row object, fields assigned one by one, retries) and proves each of them to
be a process of the protocol while others act before each of its calls.

**Jobs and progress.** `JobQueue`, `Worker`, `WorkerSafety` and `WorkerProgress` model the durable jobs and the worker,
`WorkerLaws` and `WorkerTimeouts` what they do to jobs and runs; `UseCases` gives each use case as one call and proves it to be
the protocol run without interference, `UseCaseLaws` says exactly when each succeeds and what it leaves. `EvaluationWorkers` is
the worker as it changes job and run rows.

**The evaluator.** `Evaluator` and `EvaluatorLaws`: rule matching with early exits, citations, and the pack verdict;
`RuleMatching`, `EvidenceRequirements` and `RuleCitations`: what matches, what is required, and what is cited.

**Ingestion.** `Ingest` and `IngestLaws`: one telemetry batch, the span table, and what the batch tells each run. `Redelivery`
joins it to the run protocol: a batch is delivered, reconciled, and delivered again, with anything in between; `RedeliveryLaws`
says when any delivery, and a repeated one, does something, and `RedeliveryWitness` has schedules on which a repeated one does.

**Policy review.** `PolicyReview`, `PolicyReviewLaws`, `ReviewLaws`, `ImportReview` (the use cases that change rows in place),
`PolicyCollection`, `PolicyCollectionLaws`, `CollectionContents`, `PolicyLineage` and `Paging`. `EndToEnd` joins packs that come
from review with the runs scored with them.

Digests are collision-free tokens. Clocks, fresh identifiers, the answers of the pack repository and of the extraction model are
inputs of the steps. Redaction and span normalization, the reader of structured text, the SHA function and the name-based source
identifier are uninterpreted functions. The repository functions follow the persistence crate as written.

## Where the code does less than one may expect

* A span insert stamps the run row with the span's receive time, reconciliation stamps it with a receive time too, and an
  older batch even sets the stamp back. So a swap may succeed over a row that was overtaken since it was loaded. For every
  step of every reachable world `RunStamps` says exactly when that closes a run before its stored settle time
  (`WindowIsBrokenIff`), loses a counted span (`CountIsLostIff`, with the witness `OlderBatchLosesASpan`; recovery keeps the
  wrong count, `RecoveryKeepsTheCount`), loses a saved verdict (`VerdictIsLostIff`), or shortens a settle time
  (`ReconciliationShortensIff`, with the witness `GatewayLosesItsExtension` and, as a schedule of a created run,
  `SettleTimeIsShortened`). `ProtectedIff` lifts this to whole schedules. Losing a verdict takes a clock reading that equals a
  loaded stamp: a cancellation that loaded the row before a summary was saved hides its verdict exactly if the save read that
  very time (`StaleCancellationHidesTheVerdictIff`).
  None of it happens when no write puts a stamp on the row that another process holds it under (`UnsharedStampsProtect`).
* Saving a summary writes the verdict before the run completes, whatever its state; so a cancelled or failed run may show a
  verdict. `StrayVerdictIff` says which steps lead there, `VerdictMeansCompletedIff` the same for whole schedules.
* A second bundle with an equal digest is accepted and changes nothing; the digest does not cover the time of finalization,
  so a finalizer may return, and write to the row, a time other than the stored bundle's (`RunSafety.RowMayShowAnotherTime`).
  `RunTimes.TimesDifferIff` names the one kind of step that makes the two differ, and `RunTimes.TimesAgreeIff` says that
  after a whole schedule they agree if and only if no such step was taken.
* A fault between writing Evaluating and enqueueing the evaluation is never repaired: only a cancellation ends such a run
  (`WorkerProgress.FaultBeforeEnqueueOrphans`, `WorkerProgress.LostEvaluationIsNotRepaired`). The analogous fault in a
  completion is repaired by telemetry or a repeated request, never by the worker
  (`WorkerProgress.LostFinalizationIsRepairedIff`). Progress is therefore stated for use cases that are not interrupted.
* Repeating a matching completion while a run is evaluated enqueues another finalization job with an earlier time than the
  evaluation job; each such request can cost the run one more claim, which is why they appear in `WorkerProgress.EveryRunEnds`.
* A rescheduled job is handed out again under an attempt number it had before; a lease is exclusive all the same
  (`WorkerSafety.OneLeaseCanRecord`).
* A span refused as late is stored, and is accepted as a duplicate when it is sent again
  (`Ingest.LateSpanReturnsAsDuplicate`); such a repeat may bring a terminal flag the first delivery did not, and still changes
  nothing (`RedeliveryLaws.RedeliveryIsHarmless`).
* A repeated batch stores nothing and writes nothing as long as no step loses a counted span
  (`RedeliveryLaws.RedeliveryIsHarmless`). In general it acts exactly if the gateway finds room and a span that was turned
  away from the full run is now new, or was stored by others meanwhile and still moves the run on
  (`RedeliveryLaws.RedeliveryActsIff`). Both happen after a stale swap lost counted spans
  (`RedeliveryWitness.RefusedSpanIsTakenLater`, `RedeliveryWitness.RefusedSpanMovesTheRunLater`).
* Recording the failure of an import is not guarded by its state, so even a compiled import can be marked as failed; its
  pack, and all reviews, are kept nevertheless (`PolicyReviewLaws.CompiledImportCanFail`,
  `PolicyReviewLaws.ReviewsAndPacksAreKept`). It stays compiled exactly if no failure is recorded
  (`PolicyReviewLaws.StaysCompiledIff`).
* Whether a rule with a terminal state reports a failure or is unobservable may depend on the order of events, and such a
  failure may be revoked by a later event (`EvaluatorLaws.TerminalStateDependsOnOrder`,
  `EvaluatorLaws.TerminalStateFailureIsRevocable`); `EvaluatorLaws.OrderIsIrrelevantIff` and
  `EvaluatorLaws.TerminalStateFailurePersistsIff` say exactly when not.

## Model

| member | source | states |
|---|---|---|
| RunDomain.EvaluationRun.TransitionTo | crates/governance-domain/src/evaluation_run.rs:101-148 | the row moves along a permitted edge, or stays entirely unchanged: a repeated state is accepted silently, a forbidden one is an error |
| RunDomain.EvaluationRun.BeginSettling | crates/governance-domain/src/evaluation_run.rs:150-175 | reason and terminal state are set only on the first completion, the settle time is capped by the hard deadline, a repeated completion must agree, and every refusal leaves the row unchanged |
| RunInvariant.AdvanceKeeps | crates/governance-application/src/evaluation_runs.rs:678-1093 | each single repository call of any use case, from any state it can be in, keeps all facts about the rows and takes nothing back that another process may rely on |
| RunInvariant.ProcStable | crates/governance-application/src/evaluation_runs.rs:187-204 | what a process has loaded stays usable whatever the others do meanwhile |
| RunInvariant.SwapKeeps | crates/governance-persistence/src/evaluation_runs.rs:137-206 | a successful swap of a row that followed the loaded one follows the current row too, even if that has changed under an equal stamp; a failed one proves that the row changed |
| RunInvariant.InsertBundleKeeps | crates/governance-persistence/src/evaluation_runs.rs:402-467 | whoever finalizes offers evidence with the digest of the stored evidence, so the insert is accepted |
| RunInvariant.ScheduleKeeps | crates/governance-application/src/evaluation_runs.rs:307-1093 | every world any schedule of steps, crashes and span inserts leads to satisfies the invariant of rows and processes |
| RunSafety.EvidenceIsWrittenOnce | crates/governance-application/src/evaluation_runs.rs:892-997 | at most one bundle is ever stored; it belongs to exactly the spans assigned to the run, and neither changes again |
| EvidenceLaws.EvidenceHoldsTheSpans | crates/governance-telemetry/src/lib.rs:777-862 | in every schedule a stored bundle holds all events and trace ids that the run's assigned spans normalize to, and the row's reason and terminal state |
| EvidenceLaws.EvidenceQualityIff | crates/governance-telemetry/src/lib.rs:796-826 | its trace is insufficient if and only if a timeout completed the run or a blocking defect was found, and complete if and only if neither a timeout did nor any defect was found, a missing terminal event not counting |
| EvidenceLaws.DigestCoversAllButTheTime | crates/governance-telemetry/src/lib.rs:827-843 | bundles with one digest agree in everything but the time of finalization, and in the target, the policy and the defects behind them |
| EvidenceLaws.EvidenceSpansIff | crates/governance-persistence/src/evaluation_runs.rs:250-379 | the spans evidence is sealed from are exactly those that arrived under a new key before the run was claimed and while it had room; what arrived later is kept as late |
| RunSafety.EvaluatedRunsCarryTheirBundle | crates/governance-application/src/evaluation_runs.rs:897-984 | a run in Evaluating or Completed has a bundle, and its digest, counts and quality are that bundle's, on the first and on the recovery path |
| RunSafety.EvidenceConflictIsUnreachable | crates/governance-persistence/src/evaluation_runs.rs:402-440 | however many finalizers race and crash, the conflict over different evidence never happens |
| RunSafety.RowMayShowAnotherTime | crates/governance-application/src/evaluation_runs.rs:935-984 | two finalizers that race from any ready run leave the second one's time on the row and the first one's in the bundle |
| RunTimes.TimesDifferIff | crates/governance-application/src/evaluation_runs.rs:935-984 | a step of a reachable world leaves row and bundle with one time of finalization if and only if they had one and it is not a finalizer writing a row, still as loaded, with a time other than the stored bundle's |
| RunTimes.TimesAgreeIff | crates/governance-persistence/src/evaluation_runs.rs:402-440 | after a whole schedule they show one time if and only if no such step was taken: what differs is never mended |
| RunSafety.SelectionIsComplete | crates/governance-application/src/evaluation_runs.rs:308-320 | a run that can be created is scored with at least one rule, with a rule for every requested id, and with all rules when none was requested |
| RunScoring.SelectionIsExact | crates/governance-application/src/evaluation_runs.rs:1069-1076 | a rule scores a run if and only if the pinned pack has it and no id, or its id, was requested; each as often as in the pack, and in its order |
| RunScoring.SummaryScoresTheRequested | crates/governance-application/src/evaluation_runs.rs:1069-1080 | in every schedule a stored summary has one result for each such rule and no other, with that rule's id and severity, about the stored evidence |
| RunScoring.ResultsAreForTheRequestedIds | crates/governance-application/src/evaluation_runs.rs:1069-1080 | so a run for which rules were requested has results for exactly the requested ids |
| RunScoring.ShownVerdictMeaning | crates/governance-evaluator/src/lib.rs:91-103 | in every schedule a shown verdict is fail if and only if a critical or high rule failed, and inconclusive if and only if none did and some result is unobservable or in error |
| RunSafety.VerdictIsTheScore | crates/governance-application/src/evaluation_runs.rs:1024-1093 | a completed run has a verdict, and any verdict shown is that of the pinned, selected rules over the stored bundle, whoever computed it |
| RunSafety.TimedOutRunsAreInconclusive | crates/governance-telemetry/src/lib.rs:800-830 | a run that an idle or duration timeout completed is inconclusive, whatever its spans, when its rules report missing evidence as not observable |
| RunSafety.LifecycleIsMonotone | crates/governance-domain/src/evaluation_run.rs:101-148 | over a whole run: every change is a permitted transition, at most five happen, terminal states absorb, and a state once left never returns |
| RunSafety.CompletionIsWrittenOnce | crates/governance-domain/src/evaluation_run.rs:150-175 | reason and terminal state are written once as a pair, absent before settling, present from settling through completion |
| RunCompletion.CompletionIffAsked | crates/governance-application/src/evaluation_runs.rs:695-709 | a row shows a reason and a terminal state if and only if some step settled the run and its process asked for just these: a terminal batch for a terminal event with the state its span reported, a request for its own |
| RunCompletion.TelemetrySettlesAsTerminalEvent | crates/governance-application/src/evaluation_runs.rs:695-709 | telemetry settles an open run only on a terminal span, as a terminal event, until the settle duration or the hard deadline |
| RunCompletion.RequestSettlesAsAsked | crates/governance-application/src/evaluation_runs.rs:840-853 | a request settles it with its own reason and state, until the requested time, five minutes or the deadline |
| RunCompletion.TelemetryNeverTimesOut | crates/governance-application/src/evaluation_runs.rs:695-709 | a run that telemetry settled never counts as timed out, whatever happens later |
| RunSafety.SettleTimeIsBounded | crates/governance-domain/src/evaluation_run.rs:163-173 | no stored settle time exceeds the hard deadline, which never moves |
| RunSafety.DeadlineIsWithinADay | crates/governance-application/src/evaluation_runs.rs:321-353 | the pinned fields never change, and the hard deadline lies between a second and a day after creation, whatever duration was asked for |
| RunSafety.CompletionSettlesSoon | crates/governance-application/src/evaluation_runs.rs:840-853 | a completion lets a run settle for the requested time, cut off only at five minutes and at the hard deadline |
| RunSafety.FinalizationIsNotPostponedForever | crates/governance-application/src/evaluation_runs.rs:937-943 | once the hard deadline has passed, no stream of telemetry can have a finalizer refused as still settling |
| RunSafety.GivingUpNeedsEightChanges | crates/governance-application/src/evaluation_runs.rs:688-746 | reconciliation gives up only if the row changed in each of eight disjoint windows from a read to its swap; its lifecycle errors are unreachable |
| RunSafety.ReconciliationAbsorbs | crates/governance-application/src/evaluation_runs.rs:695-726 | when reconciliation returns without giving up, the run has reached at least the lifecycle point the batch calls for |
| RunSafety.RedeliveryChangesNothing | crates/governance-application/src/evaluation_runs.rs:695-726 | once a batch was reconciled, a batch of duplicates finds nothing to write if and only if it is not terminal or the run is no longer collecting; if the first batch was terminal the run never is |
| RedeliveryLaws.RedeliveryIsHarmless | crates/governance-application/src/evaluation_runs.rs:471-602 | ingest a run's spans while others act, reconcile, let anything happen, deliver the same spans again: as long as no step loses a counted span, none is stored again, the derived batch has nothing inserted, and reconciling it writes nothing, whatever the spans (late, conflicting or refused for want of room) |
| RedeliveryLaws.UnsharedRedeliveryIsHarmless | crates/governance-application/src/evaluation_runs.rs:187-204 | so it is in every schedule in which no write puts a stamp on the row under which another process holds it |
| RedeliveryLaws.RedeliveryActsIff | crates/governance-persistence/src/evaluation_runs.rs:297-320 | in every schedule a second delivery stores a span or writes the row if and only if the gateway finds room at its first valid span, and a span turned away from the full run the first time is now new (and late or with room), or is stored and the run is not yet where it calls for |
| RedeliveryLaws.UninterruptedRedeliveryActsIff | crates/governance-persistence/src/evaluation_runs.rs:297-320 | when nobody acts during the second delivery, it can be told beforehand: the stored count is below the limit, and a span turned away the first time is still unknown, or is known and the run is not yet where it calls for |
| RedeliveryLaws.DeliveryActsIff | crates/governance-application/src/evaluation_runs.rs:471-602 | the same for any delivery to any reachable run while others act: authorization, insert, aggregation and reconciliation in one condition on the stores the spans come to |
| RedeliveryLaws.UninterruptedDeliveryActsIff | crates/governance-application/src/evaluation_runs.rs:471-602 | when nobody acts in between, it can be told beforehand: it acts if and only if the stored count is below the limit and some valid span has an unknown key, or is known while the run is created, or is known and terminal while the run is collecting |
| RedeliveryWitness.RefusedSpanIsTakenLater | crates/governance-persistence/src/evaluation_runs.rs:137-206 | a schedule of any created run in which a stale swap loses two counted spans and the span turned away the first time is stored the second time |
| RedeliveryWitness.RefusedSpanMovesTheRunLater | crates/governance-application/src/evaluation_runs.rs:695-726 | if others store it in between, the second delivery stores nothing and yet its batch writes the row |
| Redelivery.InsertsAgree | crates/governance-persistence/src/evaluation_runs.rs:250-379 | the span table of the batch and the store of the run give the same answer and change alike |
| RunStamps.WindowIsBrokenIff | crates/governance-application/src/evaluation_runs.rs:937-949 | a step of a reachable world takes a run out of its settle window early if and only if it is a claim whose own loaded row was ripe, whose row was overtaken under an equal state and stamp, and the stored settle time lies ahead |
| RunStamps.CountIsLostIff | crates/governance-persistence/src/evaluation_runs.rs:137-206 | a step makes an exact span count wrong if and only if it swaps in an overtaken row with another count, other than when evidence is first written |
| RunStamps.VerdictIsLostIff | crates/governance-persistence/src/evaluation_runs.rs:137-206 | a step hides a saved verdict if and only if it swaps in an overtaken row that had none |
| RunStamps.ProtectedIff | crates/governance-application/src/evaluation_runs.rs:187-204 | over a whole schedule window, count and verdict are right throughout if and only if no such step is taken |
| RunStamps.UnsharedStampsProtect | crates/governance-application/src/evaluation_runs.rs:187-204 | they are right throughout every schedule in which no write puts a stamp on the row under which another process holds it |
| RunStamps.FreshStampsProtect | crates/governance-application/src/evaluation_runs.rs:187-204 | in particular when every write carries a stamp the row never had |
| RunStamps.GatewayReusesItsStamp | crates/governance-application/src/evaluation_runs.rs:687-731 | a gateway that reconciles the row its own insert stamped never writes a new stamp, and leaves somebody overtaken if and only if another process had loaded the row under it |
| RunStamps.ReconciliationShortensIff | crates/governance-application/src/evaluation_runs.rs:712-731 | reconciliation shortens the stored settle time if and only if it extends an overtaken row to less than has been stored since |
| RunStamps.ReconciliationOnlyExtends | crates/governance-application/src/evaluation_runs.rs:712-723 | with unshared stamps it never does |
| RunStamps.ExtensionIsOverlookedIff | crates/governance-application/src/evaluation_runs.rs:712-749 | a finalizer that loaded the row before an extension still swaps if and only if the batch's receive time equals the stamp it loaded |
| RunStamps.GatewayLosesItsExtension | crates/governance-application/src/evaluation_runs.rs:688-731 | two gateways load the row a span left; the one with the earlier batch, swapping second, overwrites the later settle time with its own |
| RunStamps.OlderBatchLosesASpan | crates/governance-application/src/evaluation_runs.rs:687-731 | an older batch sets the stamp back, and a finalizer that loaded the row before a second span was counted closes the run with one span too few |
| RunStamps.SettleTimeIsShortened | crates/governance-application/src/evaluation_runs.rs:688-731 | a schedule of any created run with enough time left, its processes started and their rows loaded on the way, does so |
| RunStamps.StaleCancellationHidesTheVerdictIff | crates/governance-persistence/src/live_evaluations.rs:67-105 | a cancellation that loaded the row before a summary was saved hides the saved verdict if and only if it was saved under a clock reading equal to the stamp of that row |
| RunStamps.StrayVerdictIff | crates/governance-persistence/src/live_evaluations.rs:67-105 | a step leaves a verdict on a cancelled or failed run if and only if it closes (or rewrites) it from a loaded row that carried one, or saves a first summary for a run already closed |
| RunStamps.VerdictMeansCompletedIff | crates/governance-application/src/evaluation_runs.rs:1024-1093 | throughout a schedule a finished run shows a verdict exactly if it was completed, if and only if no such step is taken |
| RunStamps.CancelledRunMayShowAVerdict | crates/governance-persistence/src/live_evaluations.rs:67-105 | a cancellation between the two writes of an evaluation is such a step |
| RunSession.Session.CompleteEvaluationRun | crates/governance-application/src/evaluation_runs.rs:831-864 | as code, under interference before every call, completion is the protocol's process; a success returned the stored row |
| RunSession.Session.CancelEvaluationRun | crates/governance-application/src/evaluation_runs.rs:803-819 | the same for cancellation; a success left the run cancelled |
| RunSession.Session.ReconcileCorrelatedRun | crates/governance-application/src/evaluation_runs.rs:678-746 | the retry loop is the protocol's process; it returns the stored row at the required lifecycle point, or the one error after at least eight changes by others; the end of the loop is never reached |
| RunSession.Session.FinalizeEvaluationRun | crates/governance-application/src/evaluation_runs.rs:892-997 | both finalization paths are the protocol's process, and what is returned is the stored evidence up to the time of sealing |
| RunSession.Session.EvaluateFinalizedRun | crates/governance-application/src/evaluation_runs.rs:1024-1093 | first, resumed and repeated evaluation are the protocol's process and return the stored summary |
| RunSession.Session.ShowVerdict | crates/governance-application/src/evaluation_runs.rs:1080-1093 | a successful last step left the run completed with the summary's verdict and that summary stored |
| UseCases.FinalizeIsUninterrupted | crates/governance-application/src/evaluation_runs.rs:892-997 | finalization as one call has exactly the effect of the protocol's process when nothing interferes |
| UseCases.EvaluateIsUninterrupted | crates/governance-application/src/evaluation_runs.rs:1024-1093 | evaluation as one call has exactly the effect of the protocol's process when nothing interferes |
| UseCases.UseCaseKeeps | crates/governance-application/src/evaluation_runs.rs:678-1093 | a use case run in one piece keeps the invariant and only moves the row forward |
| UseCaseLaws.TransitionIff | crates/governance-domain/src/evaluation_run.rs:101-148 | a transition is permitted exactly one step up the lifecycle, from created to settling, or to cancelled or failed from every open state |
| UseCaseLaws.RunIsCreatedIff | crates/governance-application/src/evaluation_runs.rs:308-360 | a run is created if and only if its pack is approved and has rules and every requested rule is one of them; everything on the first row |
| UseCaseLaws.CompletionMeaning | crates/governance-application/src/evaluation_runs.rs:831-864 | exactly when a completion succeeds, first or repeated, and the whole row it leaves |
| UseCaseLaws.CancellationMeaning | crates/governance-application/src/evaluation_runs.rs:803-819 | exactly when a cancellation succeeds; nothing but state and stamp changes |
| UseCaseLaws.ReconciliationMeaning | crates/governance-application/src/evaluation_runs.rs:688-731 | the whole row that reconciliation leaves, by what the batch brings and where the run is |
| UseCaseLaws.FinalizationMeaning | crates/governance-application/src/evaluation_runs.rs:892-997 | exactly when finalization succeeds; counts, quality, digest and time on the row are those of the stored evidence, everything else is kept |
| UseCaseLaws.FirstEvaluationMeaning | crates/governance-application/src/evaluation_runs.rs:1049-1093 | exactly when a summary is stored and when the run completes, and the whole row that is left |
| UseCaseLaws.RepeatedEvaluationMeaning | crates/governance-application/src/evaluation_runs.rs:1024-1048 | a repeated or resumed evaluation completes the run with the stored verdict and changes nothing else |
| UseCaseLaws.FirstBundleIsKept | crates/governance-persistence/src/evaluation_runs.rs:402-467 | of two bundles the first is kept; the second is accepted exactly if it has its digest |
| UseCaseLaws.FirstSummaryIsKept | crates/governance-persistence/src/live_evaluations.rs:67-105 | of two summaries the first without a rule twice is kept; another is accepted only if it is the same |
| WorkerSafety.OpenRunsKeepTheirJob | crates/governance-application/src/evaluation_runs.rs:355-362 | with workers, telemetry and requests interleaved, leases expiring and workers vanishing between calls, an open run always has exactly one live job of the kind that moves it on |
| WorkerSafety.OneLeaseCanRecord | crates/governance-persistence/src/evaluation_runs.rs:550-696 | of several workers that claimed one job at most one can record an outcome, although rescheduling gives the attempt number back |
| WorkerSafety.MakeKeeps | apps/governance-worker/src/main.rs:62-258 | each claim, dispatch, record and external request keeps jobs, leases and run row in step |
| WorkerSafety.EnqueueServes | crates/governance-persistence/src/evaluation_runs.rs:487-548 | adding a job or postponing the live one keeps one live job per kind and loses none |
| WorkerTimeouts.DeadlineJobMeaning | apps/governance-worker/src/main.rs:69-104 | a deadline job closes an open run with the reason maximal duration, the state timed_out and a settle time of now cut at the deadline, schedules its finalization, and leaves any other run alone |
| WorkerTimeouts.IdleJobMeaning | apps/governance-worker/src/main.rs:106-140 | an idle job closes an open run as idle if and only if nothing was heard of it for the idle time; otherwise the run stays as it is and the job is put back to when that time will be over |
| WorkerTimeouts.ClosedByTimeoutIsNeverJudged | apps/governance-worker/src/main.rs:69-141 | with any workers, telemetry, requests and faults before and after, a run closed by such a job that is ever completed under a reviewed pack is inconclusive |
| WorkerLaws.ClaimMeaning | crates/governance-persistence/src/evaluation_runs.rs:550-609 | a claimed job runs under one more attempt, and is due again exactly from the end of its lease on |
| WorkerLaws.RecordMeaning | apps/governance-worker/src/main.rs:169-258 | under the lease success ends the job, a failure puts it back after 2, 4, ... 256 seconds, the last permitted one ends it and fails the run unless that is finished; without the lease nothing changes |
| WorkerLaws.EnqueueMeaning | crates/governance-persistence/src/evaluation_runs.rs:487-548 | a live job of the kind is only ever put off, else a new one is added |
| WorkerLaws.TelemetrySchedules | crates/governance-application/src/evaluation_runs.rs:747-790 | reconciliation schedules the finalization for the settle time, or the idle check for the idle time |
| WorkerLaws.CompletionSchedules | crates/governance-application/src/evaluation_runs.rs:853-863 | a successful completion schedules the finalization for the settle time |
| WorkerLaws.FinalizationSchedules | crates/governance-application/src/evaluation_runs.rs:984-995 | the finalization that takes the run to Evaluating schedules the evaluation at once |
| WorkerProgress.PollSpends | apps/governance-worker/src/main.rs:62-227 | past the hard deadline every tick that claims a job ends the run or strictly lowers a budget of state, live jobs and attempts left |
| WorkerProgress.ExternalSpends | crates/governance-application/src/evaluation_runs.rs:747-862 | telemetry and cancellation never raise that budget; a completion request raises it by at most one |
| WorkerProgress.SomethingIsDue | apps/governance-worker/src/main.rs:197-215 | once the deadline has passed and the longest backoff is over, an open run has a due job |
| WorkerProgress.EveryRunEnds | apps/governance-worker/src/main.rs:36-258 | whatever happened before and however ticks are spaced, a run is over once as many ticks past the deadline have claimed a job as attempts are permitted, plus four, plus one per completion request |
| WorkerProgress.EveryRunEndsInTime | apps/governance-worker/src/main.rs:26-41 | at any polling interval, an attentive worker ends every run within one longest backoff and one interval per permitted attempt, per completion request, and for three more, and one interval per tick that goes to another run's job |
| WorkerProgress.LostEvaluationIsNotRepaired | crates/governance-application/src/evaluation_runs.rs:897-930 | a run whose evaluation job was lost is never completed or failed by anything; it ends if and only if it is cancelled |
| WorkerProgress.FaultBeforeEnqueueOrphans | crates/governance-application/src/evaluation_runs.rs:984-995 | finalizing any run that is ready without the enqueue that follows leaves exactly such a run |
| WorkerProgress.LostFinalizationIsRepairedIff | crates/governance-application/src/evaluation_runs.rs:852-862 | a settling run without its finalization job stays so under every turn except reconciled telemetry, a matching completion, or a cancellation |
| EvaluationWorkers.EvaluationWorker.FindDue | crates/governance-persistence/src/evaluation_runs.rs:550-577 | finds a due job, counting expired leases, that no other due job precedes, if there is one |
| EvaluationWorkers.EvaluationWorker.DispatchJob | apps/governance-worker/src/main.rs:62-167 | each kind of job runs its use case as code on the row object and has the effect of the atomic use case on rows and jobs |
| EvaluationWorkers.EvaluationWorker.HandleJobResult | apps/governance-worker/src/main.rs:169-258 | completion, retry with capped exponential backoff, and the last permitted failure, which also fails the run, each only under the lease |
| EvaluationWorkers.EvaluationWorker.Serve | apps/governance-worker/src/main.rs:36-59 | the polling loop, with ticks at any distance, ends the run after the permitted attempts plus four claims, and in bounded time when it polls at least every given interval, ticks spent on other runs' jobs included |
| Evaluator.EvaluateRule | crates/governance-evaluator/src/lib.rs:10-70 | the nested loops with early exits compute the specified outcome, status and citations |
| RuleMatching.NumberDecides | crates/governance-evaluator/src/lib.rs:204-231 | an event with the right type, name and attributes matches if and only if its number exceeds the threshold |
| RuleMatching.GreaterNumbersMatchToo | crates/governance-evaluator/src/lib.rs:222-229 | a greater number matches whenever a smaller one does; the threshold itself never does |
| RuleMatching.MatchesCarryANumber | crates/governance-evaluator/src/lib.rs:222-229 | nothing matches a threshold without a number at its path |
| RuleMatching.OthersDoNotMatch | crates/governance-evaluator/src/lib.rs:204-221 | another type, another name or another value of a required attribute never matches |
| RuleMatching.LessAskedMoreMatched | crates/governance-evaluator/src/lib.rs:204-231 | dropping a condition only adds matches |
| RuleMatching.ThresholdDecides | crates/governance-evaluator/src/lib.rs:10-70 | a rule that guards a threshold fails exactly if the one event of its kind exceeds it with nothing allowed before, and otherwise passes without citing anything |
| RuleMatching.RefundsNeedApproval | crates/governance-evaluator/src/lib.rs:428-453 | a refund with an approval passes, in either order of listing, if and only if it does not exceed the threshold or was approved before with the decision asked for |
| RuleMatching.PathLeads | crates/governance-evaluator/src/lib.rs:233-236 | a dotted path names what its keys lead to, object by object; splitting undoes joining |
| EvidenceRequirements.AttributeRequired | crates/governance-evaluator/src/lib.rs:244-258 | `attribute:key` asks for an event with the attribute |
| EvidenceRequirements.AttributeValueRequired | crates/governance-evaluator/src/lib.rs:244-258 | `attribute:key=value` asks for one with that text, or with the value the text reads as |
| EvidenceRequirements.TypedPathRequired | crates/governance-evaluator/src/lib.rs:259-274 | `type.path` asks for an event of the type that has the path |
| EvidenceRequirements.InputRequired | crates/governance-evaluator/src/lib.rs:286-289 | under `input.` that is something the keys lead to in the event's input |
| EvidenceRequirements.OutputRequired | crates/governance-evaluator/src/lib.rs:290-292 | under `output.` in its output |
| EvidenceRequirements.AttributePathRequired | crates/governance-evaluator/src/lib.rs:293-302 | under `attributes.` an attribute of that name, or something the keys lead to |
| EvidenceRequirements.TypeOrAttributeRequired | crates/governance-evaluator/src/lib.rs:276-283 | a plain text asks for an event of that type or with that attribute |
| EvidenceRequirements.DottedAttributeRequired | crates/governance-evaluator/src/lib.rs:260-283 | any other text with a dot asks for the attribute of that name |
| EvidenceRequirements.TypeNamesRoundTrip | crates/governance-evaluator/src/lib.rs:261-264 | serialized type names are read back as their types |
| EvidenceRequirements.BlanksDoNotMatter | crates/governance-evaluator/src/lib.rs:239 | white space around a requirement makes no difference |
| EvidenceRequirements.ReportedStateMeaning | crates/governance-evaluator/src/lib.rs:191-202 | an event reports the text of the first state attribute it has |
| EvidenceRequirements.MissingEvidenceMeaning | crates/governance-evaluator/src/lib.rs:311-318 | what missing evidence means is the rule's choice, and nothing is cited for it |
| RuleCitations.OrderingCitesTheLatest | crates/governance-evaluator/src/lib.rs:121-144 | an ordering assertion cites the last of the latest events before the trigger that satisfy it |
| RuleCitations.PassCitesIff | crates/governance-evaluator/src/lib.rs:43-69 | a pass cites its triggers and what its assertions cite at them, and nothing else |
| RuleCitations.FailureCitesIff | crates/governance-evaluator/src/lib.rs:43-60 | a failure that cites events cites everything up to the first pair that does not hold, that pair included, and nothing beyond |
| EvaluatorLaws.AssertionMeaning | crates/governance-evaluator/src/lib.rs:119-189 | an assertion holds exactly when its declarative meaning does, and only an unfinished trigger makes a terminal state unobservable |
| EvaluatorLaws.PassMeaning | crates/governance-evaluator/src/lib.rs:10-70 | a rule passes if and only if the trace is usable, all required evidence is present and every assertion holds at every trigger |
| EvaluatorLaws.PassIgnoresOrder | crates/governance-evaluator/src/lib.rs:10-70 | passing is invariant under permuting events and assertions |
| EvaluatorLaws.StatusIgnoresOrder | crates/governance-evaluator/src/lib.rs:10-70 | without terminal-state assertions the whole status is invariant |
| EvaluatorLaws.FailureMeaning | crates/governance-evaluator/src/lib.rs:28-69 | a rule fails exactly if some violated pair precedes every unobservable one, or missing evidence counts as failure and some pair (or the trace) lacks it |
| EvaluatorLaws.OrderIsIrrelevantIff | crates/governance-evaluator/src/lib.rs:10-70 | the status is the same for all orders of events and assertions if and only if evidence is missing, or no pair is violated, or none is unobservable, or missing evidence counts as failure |
| EvaluatorLaws.TerminalStateDependsOnOrder | crates/governance-evaluator/src/lib.rs:178-187 | with one, whichever trigger comes first decides between failed and not observable |
| EvaluatorLaws.CitedFailureIsCertificate | crates/governance-evaluator/src/lib.rs:43-69 | a failure with citations fails again on the cited events alone, its evidence requirements dropped |
| EvaluatorLaws.CitedPassIsCertificate | crates/governance-evaluator/src/lib.rs:119-189 | a pass passes again on its cited events exactly when the terminal states it asks for are visible there |
| EvaluatorLaws.CitedPassIsCertificateWithoutTerminalStates | crates/governance-evaluator/src/lib.rs:119-189 | so a pass of a rule without terminal states is always certified by its citations |
| EvaluatorLaws.CitationsAreCanonical | crates/governance-evaluator/src/lib.rs:43-69 | citations are strictly increasing and name events of the trace only |
| EvaluatorLaws.ViolationIsIrrevocable | crates/governance-evaluator/src/lib.rs:119-177 | a violated ordering, absence or count stays exactly a failure under any later events |
| EvaluatorLaws.TerminalStateFailureIsRevocable | crates/governance-evaluator/src/lib.rs:178-202 | a failed terminal state may be turned into a pass by a later event |
| EvaluatorLaws.TerminalStateFailurePersistsIff | crates/governance-evaluator/src/lib.rs:178-202 | such a failure persists under later events while the state is unreported; once it is reported, it persists if and only if a violated pair that asks for something else precedes every unobservable one, or missing evidence counts as failure and some pair is unobservable |
| EvaluatorLaws.SummaryPartitions | crates/governance-evaluator/src/lib.rs:77-90 | passed, failed and inconclusive partition the results; the saturating subtraction never saturates |
| EvaluatorLaws.VerdictMeaning | crates/governance-evaluator/src/lib.rs:91-109 | fail exactly if a critical or high rule failed, else inconclusive exactly if some rule is undecided, else pass |
| EvaluatorLaws.VerdictIsAJoin | crates/governance-evaluator/src/lib.rs:72-111 | the verdict of concatenated rule lists is the worse of their verdicts |
| EvaluatorLaws.SelectionNeverRaisesVerdict | crates/governance-evaluator/src/lib.rs:72-111 | selecting rules never makes the verdict worse, and only the set of rules matters |
| EvaluatorLaws.InsufficientTraceVerdict | crates/governance-evaluator/src/lib.rs:11-13 | an insufficient trace makes a pack of such rules inconclusive, with nothing decided |
| Ingest.IngestBatch | crates/governance-application/src/evaluation_runs.rs:471-602 | counters equal the tallies of the spans' fates and fit together; each run's batch has the latest receive time, whether anything was new, and the state of the first terminal span |
| IngestLaws.AnswerMeaning | crates/governance-persistence/src/evaluation_runs.rs:250-379 | the store's answer to a span, by known keys and spans, the owner of its trace, and whether its run is open, full or closed |
| IngestLaws.TurnedAwayIff | crates/governance-application/src/evaluation_runs.rs:472-545 | a span is turned away before the store sees it if and only if it is malformed or its run was of another target or had no room when the batch first named it |
| IngestLaws.BatchStoresItsSpans | crates/governance-persistence/src/evaluation_runs.rs:297-379 | a batch appends exactly the rows of its inserted, unassigned and late spans, under their own runs and in order, and counts exactly the inserted ones |
| IngestLaws.CountersMeaning | crates/governance-application/src/evaluation_runs.rs:583-602 | each counter is the number of spans with that fate |
| Ingest.ReceivedIsSpent | crates/governance-application/src/evaluation_runs.rs:472-560 | once received, a span has nothing left to give: it is known, or it will go on being refused, and no row was lost or run changed but by counting it |
| Ingest.IngestKeepsTheTables | crates/governance-persistence/src/evaluation_runs.rs:250-379 | no span is stored twice, no trace is split between runs, span counts are exact and within the limit |
| Ingest.AuthorizedRunsAreFound | crates/governance-application/src/evaluation_runs.rs:525-545 | the store's missing-run error never strikes within a batch |
| Ingest.IngestIsIdempotent | crates/governance-persistence/src/evaluation_runs.rs:250-329 | the same batch once more stores and counts nothing, whatever was in it |
| Ingest.LateSpanReturnsAsDuplicate | crates/governance-persistence/src/evaluation_runs.rs:273-379 | a repeated span is a duplicate exactly if it was inserted, unassigned, late or a duplicate before |
| PolicyReview.CalculateReadiness | crates/governance-domain/src/policy_import.rs:314-359 | each gate means what it says, and each closed gate, and nothing else, is a blocker |
| PolicyReview.ReadinessMeaning | crates/governance-domain/src/policy_import.rs:362-382 | ready is review complete with something approved; review is complete exactly when no review blocker is left |
| ReviewLaws.ReadyIff | crates/governance-domain/src/policy_import.rs:314-382 | review is complete if and only if the source is verified, every chunk processed, every candidate decided, and every approved one complete |
| ReviewLaws.ReviewMeaning | crates/governance-application/src/policy_import.rs:780-866 | exactly why a review is refused, and everything it changes: the candidate it names, as decided, signed and edited, and the state of the import |
| ReviewLaws.ApprovalReachesThePack | crates/governance-application/src/policy_import.rs:972-1056 | what a reviewer approved, with the edits made on the way, is what the pack enforces and documents |
| ReviewLaws.RejectionNeverReachesThePack | crates/governance-application/src/policy_import.rs:1000-1056 | a rejected candidate has no rule in the pack |
| ReviewLaws.PackListsTheApproved | crates/governance-application/src/policy_import.rs:1000-1056 | the pack has a rule and an obligation for each approved candidate and no other, in their order, under their keys, numbered from the first fresh identifier |
| ReviewLaws.ManualMeaning | crates/governance-application/src/policy_import.rs:868-970 | exactly why a manual candidate is refused, and what is appended otherwise; statements count as the same up to case and outer white space |
| ReviewLaws.ExtractionMeaning | crates/governance-application/src/policy_import.rs:1172-1245 | candidates are taken all or none, and each is what its item says, located in the segment it quotes |
| ReviewLaws.StoringMeaning | crates/governance-persistence/src/policy_imports.rs:299-373 | extracted candidates replace the old ones unless one was reviewed or two are the same |
| ReviewLaws.TransitionMeaning | crates/governance-persistence/src/policy_imports.rs:206-249 | which transitions can be requested |
| ReviewLaws.CompilationMarks | crates/governance-persistence/src/policy_imports.rs:635-677 | compilation marks an import with pack and source once, and keeps the first of each |
| PolicyReview.Extracted | crates/governance-application/src/policy_import.rs:1180-1240 | an extracted candidate's excerpt is a verbatim part of a segment of the source |
| PolicyReviewLaws.WorkflowKeeps | crates/governance-application/src/policy_import.rs:677-970 | over all sequences of operations a candidate is pending exactly while unreviewed, so every approved one has a review; keys are unique; in review, the state tells exactly whether the review is complete |
| PolicyReviewLaws.ReviewsAndPacksAreKept | crates/governance-persistence/src/policy_imports.rs:299-373 | reviews survive failures and repeated extraction; a compiled pack is never exchanged |
| PolicyReviewLaws.CompiledImportCanFail | crates/governance-persistence/src/policy_imports.rs:596-633 | a sequence of permitted operations marks an import as failed that was compiled, and has its pack |
| PolicyReviewLaws.StaysCompiledIff | crates/governance-persistence/src/policy_imports.rs:596-633 | a compiled import stays compiled throughout a sequence of operations if and only if none records a failure |
| PolicyReviewLaws.CompilationSucceedsIff | crates/governance-application/src/policy_import.rs:972-1081 | an import compiles exactly when the command is complete, it is ready to compile and something is approved: the errors about missing reviews and rules and the document validation are dead; the pack has rules, each with an assertion, unique ids, and one obligation per rule |
| PolicyReviewLaws.CompilationConserves | crates/governance-application/src/policy_import.rs:1015-1056 | rules and obligations are exactly those of the approved candidates, as edited in review: nothing approved is dropped, nothing else is added |
| PolicyReviewLaws.RuleIdsAreInjective | crates/governance-application/src/policy_import.rs:1083-1097 | different candidates get different rule ids, under whatever namespaces |
| PolicyReviewLaws.SoundPacksNeverGuess | crates/governance-evaluator/src/lib.rs:72-111 | a compiled pack has distinct results and is exactly inconclusive on any insufficient trace |
| ImportReview.ReviewDesk.ReviewPolicyCandidate | crates/governance-application/src/policy_import.rs:780-866 | a review replaces exactly one candidate, which then carries the decision and the review, and the state is derived anew; a refusal changes nothing |
| ImportReview.ReviewDesk.AddManualPolicyCandidate | crates/governance-application/src/policy_import.rs:868-970 | a manual candidate arrives approved and reviewed, or nothing changes |
| ImportReview.ReviewDesk.CompilePolicyImport | crates/governance-application/src/policy_import.rs:972-1081 | the gates, the loop over approved candidates and the marking of the import have the specified result |
| PolicyCollection.CalculateCollectionReadiness | crates/governance-domain/src/policy_collection.rs:153-194 | ready exactly when there are members, all completely reviewed, with an approved candidate; the counters count |
| CollectionContents.CollectionReadyIff | crates/governance-domain/src/policy_collection.rs:153-194 | ready means members, each completely reviewed, and something approved |
| CollectionContents.CollectionListsTheApproved | crates/governance-application/src/policy_collections.rs:263-346 | the pack has a rule and an obligation for every approved candidate of every member and no other, under keys that name the source, and cites exactly the members' sources |
| PolicyCollection.CompilePolicyCollection | crates/governance-application/src/policy_collections.rs:216-346 | the nested loops with the set of seen ids and the sorting have the specified result |
| PolicyCollection.PushMembers | crates/governance-application/src/policy_collections.rs:275-341 | the loop succeeds exactly if every item has its review and rule and no two share a rule id, and then pushed one obligation and one rule per item |
| PolicyCollection.SortForgetsOrder | crates/governance-application/src/policy_collections.rs:342-344 | sorting distinctly keyed elements does not depend on the order they came in |
| PolicyCollectionLaws.CompilationForgetsOrder | crates/governance-application/src/policy_collections.rs:275-346 | permuted members and candidates both compile or both fail alike, with the same sources, the same rules and, up to fresh ids, the same obligations |
| PolicyCollectionLaws.CompiledCollectionsAreWellReferenced | crates/governance-application/src/policy_collections.rs:275-346 | rules strictly increase by id, each with exactly one obligation, and each obligation's source is in the bundle |
| PolicyCollectionLaws.CollectionCompilesIff | crates/governance-application/src/policy_collections.rs:247-341 | over workflow-made members a draft compiles exactly when it is ready and every member is in a compilable state; the errors about missing parts and duplicate rule ids are dead even if namespaces collide |
| PolicyCollectionLaws.CollectionConserves | crates/governance-application/src/policy_collections.rs:275-341 | the same for a collection: its rules and obligations are exactly those of the approved candidates of its members |
| PolicyLineage.HistoryIsLinear | crates/governance-application/src/policy_import.rs:455-483 | with any number of racing and crashing creators, a source has exactly the revisions 1 to n, each superseding its compiled predecessor of different content, and no fork |
| PolicyLineage.ExecuteKeeps | migration/src/m20260813_000004_policy_source_lineage.rs:30-31 | in every reachable state ids and (source, revision) pairs are unique, every revision descends from a compiled predecessor, and what a creator has read stays valid until it inserts |
| PolicyLineage.UnracedCreationMeaning | crates/governance-application/src/policy_import.rs:455-483 | a creation nobody races with adds the first import of a fresh source, or the next revision of its parent, if and only if that is compiled, has other content, is below the limit and was not revised yet |
| Paging.PagingIsComplete | apps/governance-api/src/policy_imports.rs:522-535 | following the last id page after page terminates and yields exactly the filtered candidates, for any filter and any limit of at least one |
| Paging.PagesListTheAskedFor | apps/governance-api/src/policy_imports.rs:522-535 | the pages together list each candidate of the status asked for once, in order, and no other |
| Paging.PageSizeMeaning | apps/governance-api/src/policy_imports.rs:522-535 | no page has more than was asked for or more than a hundred, and one that has less is the last |
| Paging.CursorMeaning | apps/governance-api/src/policy_imports.rs:522-535 | a page starts behind the candidate its cursor names; an unknown cursor leaves nothing |
| EndToEnd.SoundPacksNeverJudgeTimeouts | crates/governance-telemetry/src/lib.rs:800-830 | in every schedule, a timed-out run pinned to a reviewed pack is inconclusive |
| EndToEnd.EvaluationCompletesIff | crates/governance-application/src/evaluation_runs.rs:1024-1093 | an evaluation job of a run pinned to a reviewed pack completes the run if and only if a summary is stored or the pinned content is still there |

## Left out

- RunProtocol: enqueueing is not a step of the interleaved protocol; jobs are modelled in WorkerSafety, where use cases are atomic and only the calls around them interleave.
- WorkerProgress.EveryRunEnds: assumes use cases that are not interrupted.
- WorkerProgress.EveryRunEndsInTime: the same, and a single worker that takes an earliest due job of the run in every tick that does not go to another run; how many ticks other runs take is counted, not bounded.
- RedeliveryLaws.RedeliveryIsHarmless: is about one run; a span that another run was given meanwhile under the same key is not modelled there (Ingest models it for one batch).
- Ingest.IngestBatch: spans of one batch are not interleaved with other gateways, and resolving or creating a run for an external id is an input (the resolved run id).
- RunStore: the uniqueness of evidence digests per organization, of live external boundaries and of event sequences concerns other runs or the normalizer and is not modelled; nor are trace owners in the single-run store (they are in Ingest).
- Evidence: span normalization, redaction and correlation extraction are uninterpreted; so the order in which spans with equal start times are listed is assumed not to matter.
- PolicyReview: fields that no branch reads (applicability, exceptions and required evidence of a candidate, titles, versions) are dropped, and a second OCR transformation of one import is not ruled out.
- PolicyReview: review operations of one import are sequential; the optimistic check on the candidate's time is modelled, interleaved readiness refreshes are not.
- PolicyCollection: the snapshot check when a compiled collection is stored, cloning and membership editing.
- PolicyLineage: the stored revision is taken to be unbounded up to the 32-bit limit the code checks; artifact upload is not modelled.
- Numbers are reals, so rounding and the difference between 1 and 1.0 in structured values are not modelled; messages and serialization are not modelled.
- HTTP routing, connectors, credential handling, artifact storage, model calls, the command line, reports and the web application.
