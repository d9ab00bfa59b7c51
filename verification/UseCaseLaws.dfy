/**
 * What each use case does when nothing interferes: exactly when it succeeds, and everything that changes.
 * Together with the proofs that the use cases are the protocol run without interference, this says what the
 * protocol's processes are for.
 */
module UseCaseLaws {
  import opened Wrappers
  import opened Evidence
  import Evaluator
  import opened RunDomain
  import opened RunStore
  import opened RunProtocol
  import opened RunInvariant
  import opened UseCases

  // ---------------------------------------------------------------- the lifecycle

  /** A run moves one step up its ladder, may skip collecting, and can be given up from every step but the last. */
  lemma TransitionIff(run: Run, next: RunState, now: Time)
    requires run.state != next
    ensures Transition(run, next, now).Ok? <==>
              && Rank(run.state) < 5
              && (next == Cancelled || next == RunFailed
                  || (next == Settling && run.state == Created) || Rank(next) == Rank(run.state) + 1)
    ensures Transition(run, next, now).Ok? ==>
              var run' := Transition(run, next, now).value;
              run' == run.(state := next, updatedAt := now, completedAt := run'.completedAt)
              && run'.completedAt == if next == Completed then Some(now) else run.completedAt
  {
  }

  // ---------------------------------------------------------------- creation

  /**
   * A run is created if and only if its pack is approved and has rules, and every requested rule is one of
   * them; it is pinned to that pack, target and request, and may stay open for the duration that was asked
   * for, cut to between a second and a day.
   */
  lemma RunIsCreatedIff(request: CreateRequest, pack: Pack, now: Time)
    ensures CreateRun(request, pack, now).Ok? <==>
              && pack.status == Approved && |pack.rules| > 0
              && forall id | id in request.ruleIds :: exists rule | rule in pack.rules :: rule.id == id
    ensures CreateRun(request, pack, now) == Err(UnknownRule) <==>
              && pack.status == Approved && |pack.rules| > 0
              && exists id | id in request.ruleIds :: forall rule | rule in pack.rules :: rule.id != id
    ensures CreateRun(request, pack, now).Ok? ==>
              var store := CreateRun(request, pack, now).value;
              var run := store.run;
              && run.state == Created && store.spans == [] && store.bundle.None? && store.summary.None?
              && store.history == [run]
              && run.pins.runId == request.runId && run.pins.targetVersion == request.targetVersion
              && run.pins.policyPackId == pack.id && run.pins.policyContent == ContentSha256(pack)
              && run.pins.policyContent.rules == pack.rules && run.pins.ruleIds == request.ruleIds
              && run.pins.createdAt == run.updatedAt == now
              && run.completionReason.None? && run.terminalState.None? && run.verdict.None? && run.traceQuality.None?
              && run.evidenceSha256.None? && run.lastSeenAt.None? && run.settleUntil.None? && run.finalizedAt.None?
              && run.completedAt.None? && run.spanCount == run.traceCount == run.eventCount == 0
              && (1 <= request.maxDurationSeconds <= 86_400 ==> run.hardDeadlineAt == now + request.maxDurationSeconds)
              && (request.maxDurationSeconds == 0 ==> run.hardDeadlineAt == now + 1)
              && (request.maxDurationSeconds > 86_400 ==> run.hardDeadlineAt == now + 86_400)
  {
  }

  // ---------------------------------------------------------------- completion and cancellation

  /** The first completion of a run, or one that repeats it. */
  predicate Agrees(run: Run, request: CompletionRequest) {
    run.completionReason == Some(request.reason) && run.terminalState == request.terminalState
  }

  function SoonestOf(a: Time, b: Time, c: Time): Time {
    if a <= b && a <= c then a else if b <= c then b else c
  }

  /**
   * A completion succeeds if and only if it is the first and the run is still open for spans, or it repeats the
   * one there was. While the run settles it sets the settle time; later it changes nothing.
   */
  lemma CompletionMeaning(env: Env, store: Store, request: CompletionRequest, now: Time)
    requires StoreInvariant(env, store)
    ensures var (run, (after, ok)) := (store.run, CompleteRun(store, request, now));
            && (ok <==> (if run.completionReason.Some? then Agrees(run, request)
                         else run.state == Created || run.state == Collecting))
            && (!ok ==> after == store)
            && (ok ==>
                  after.run ==
                    if Rank(run.state) <= 2 then run.(
                      state := Settling, completionReason := Some(request.reason), terminalState := request.terminalState,
                      settleUntil := Some(SoonestOf(now + request.settleSeconds, now + 300, run.hardDeadlineAt)),
                      updatedAt := now)
                    else run)
  {
    CurrentInHistory(env, store);
    assert SoundRun(store, store.run);
  }

  /** A run can be cancelled until it is finished, and cancelled again; only its state and stamp change. */
  lemma CancellationMeaning(store: Store, now: Time)
    ensures var (run, (after, ok)) := (store.run, CancelRun(store, now));
            && (ok <==> run.state != Completed && run.state != RunFailed)
            && after.run == (if ok && run.state != Cancelled then run.(state := Cancelled, updatedAt := now) else run)
  {
  }

  /** Giving up on a run fails it unless it is finished. */
  lemma FailureMarkMeaning(store: Store, now: Time)
    ensures MarkRunFailed(store, now).run ==
            if Rank(store.run.state) == 5 then store.run else store.run.(state := RunFailed, updatedAt := now)
  {
  }

  // ---------------------------------------------------------------- telemetry

  /**
   * Reconciliation by what the batch brings and where the run is: a terminal span settles an open run, any
   * other span makes a created one collect, a new span extends the settle time of a settling one and never
   * shortens it, and nothing else changes anything.
   */
  lemma ReconciliationMeaning(env: Env, store: Store, batch: Batch, settleSeconds: nat)
    requires StoreInvariant(env, store)
    ensures var (run, (after, ok)) := (store.run, ReconcileRun(store, batch, settleSeconds));
            var until := Min(batch.latestReceivedAt + settleSeconds, run.hardDeadlineAt);
            && ok
            && after.run ==
                 if batch.terminal && Rank(run.state) < 2 then run.(
                   state := Settling, completionReason := Some(TerminalEvent), terminalState := batch.terminalState,
                   settleUntil := Some(until), updatedAt := batch.latestReceivedAt)
                 else if run.state == Created then run.(state := Collecting, updatedAt := batch.latestReceivedAt)
                 else if run.state == Settling && batch.insertedAny && run.settleUntil.Some? && run.settleUntil.value < until
                 then run.(settleUntil := Some(until), updatedAt := batch.latestReceivedAt)
                 else run
  {
    CurrentInHistory(env, store);
    assert SoundRun(store, store.run);
  }

  // ---------------------------------------------------------------- finalization and evaluation

  /**
   * Finalization succeeds if and only if there is evidence already, or the run is claimed, or it settles and
   * its settle time has come; and then the run is on its way to be evaluated, with the counts, quality and
   * digest of the stored evidence.
   */
  lemma FinalizationMeaning(env: Env, store: Store, now: Time)
    requires StoreInvariant(env, store)
    ensures var (run, (after, ok)) := (store.run, FinalizeRun(env, store, now));
            && (ok <==> store.bundle.Some? || run.state == Finalizing
                        || (run.state == Settling && run.settleUntil.Some? && run.settleUntil.value <= now))
            && (!ok ==> after == store)
            && (ok && Rank(run.state) > 3 ==> after == store)
            && (ok && Rank(run.state) <= 3 ==>
                  && after.bundle.Some?
                  && var (run', bundle) := (after.run, after.bundle.value);
                     && run'.state == Evaluating && run'.updatedAt == now
                     && run'.traceCount == |bundle.traceIds| && run'.eventCount == |bundle.events|
                     && run'.traceQuality == Some(bundle.traceQuality)
                     && run'.evidenceSha256 == Some(bundle.evidenceSha256)
                     && run'.finalizedAt == bundle.finalizedAt
                     && (store.bundle.None? ==> run'.spanCount == |Assigned(store.spans)| && bundle.finalizedAt == Some(now))
                     && run' == run.(
                          state := run'.state, updatedAt := run'.updatedAt, traceCount := run'.traceCount,
                          eventCount := run'.eventCount, traceQuality := run'.traceQuality, spanCount := run'.spanCount,
                          evidenceSha256 := run'.evidenceSha256, finalizedAt := run'.finalizedAt))
  {
    CurrentInHistory(env, store);
    assert SoundRun(store, store.run);
    if store.bundle.Some? {
      FinalizingIsFrozen(env, store);
    }
  }

  /** The pack repository yields what the run is pinned to. */
  predicate YieldsPinned(store: Store, pack: Option<Pack>) {
    pack.Some? && ContentSha256(pack.value) == store.run.pins.policyContent
  }

  /** An evaluation that is repeated, or resumed after a fault, completes the run with the stored verdict. */
  lemma RepeatedEvaluationMeaning(env: Env, store: Store, input: Input)
    requires store.summary.Some?
    ensures var (run, (after, ok)) := (store.run, EvaluateRun(env, store, input));
            && ok && after.summary == store.summary
            && after.run ==
                 if run.state == Evaluating then run.(
                   state := Completed, verdict := Some(store.summary.value.evaluation.verdict), updatedAt := input.now,
                   completedAt := Some(input.now))
                 else run
  {
  }

  /**
   * A first evaluation stores a summary if and only if there is evidence and the pinned pack can be had, with
   * no rule twice; it completes the run, with the verdict of that summary, if and only if the run is then
   * still being evaluated.
   */
  lemma FirstEvaluationMeaning(env: Env, store: Store, input: Input)
    requires StoreInvariant(env, store) && store.summary.None?
    ensures var (run, (after, ok)) := (store.run, EvaluateRun(env, store, input));
            && (after.summary.Some? <==>
                  && store.bundle.Some? && YieldsPinned(store, input.pack)
                  && DistinctRuleIds(Evaluator.EvaluatePack(Selected(run.pins), store.bundle.value, env.parse).results))
            && (ok <==> after.summary.Some? && run.state == Evaluating)
            && (after.summary.None? ==> after == store)
            && (after.summary.Some? ==>
                  && after.summary.value.nonce == input.nonce
                  && after.run == run.(
                       state := if ok then Completed else run.state,
                       verdict := Some(after.summary.value.evaluation.verdict), updatedAt := input.now,
                       completedAt := Some(input.now)))
  {
    CurrentInHistory(env, store);
    assert SoundRun(store, store.run);
    if store.bundle.Some? && YieldsPinned(store, input.pack) {
      SavingMeaning(store, Summary(Score(env, store.run, input.pack.value, store.bundle.value), input.nonce), input.now);
    }
  }

  lemma SavingMeaning(store: Store, summary: Summary, now: Time)
    requires store.summary.None? && store.run.state != Completed
    ensures var (after, ok) := SaveAndShow(store, summary, now);
            && (after.summary == if DistinctRuleIds(summary.evaluation.results) then Some(summary) else None)
            && (ok <==> after.summary.Some? && store.run.state == Evaluating)
            && (after.summary.None? ==> after == store)
            && (after.summary.Some? ==>
                  after.run == store.run.(
                    state := if ok then Completed else store.run.state, verdict := Some(summary.evaluation.verdict),
                    updatedAt := now, completedAt := Some(now)))
  {
  }

  // ---------------------------------------------------------------- what is written once

  /** Of two bundles offered, the first is kept, and the second is accepted exactly if it has the same digest. */
  lemma FirstBundleIsKept(store: Store, bundle: EvidenceBundle, other: EvidenceBundle)
    requires store.bundle.None?
    ensures var (once, accepted) := InsertBundle(store, bundle);
            var (twice, again) := InsertBundle(once, other);
            && accepted && once == store.(bundle := Some(bundle))
            && twice == once && (again <==> other.evidenceSha256 == bundle.evidenceSha256)
  {
  }

  /** Of two summaries offered, the first without a rule twice is kept, and another is accepted only if it is the same. */
  lemma FirstSummaryIsKept(store: Store, summary: Summary, other: Summary, now: Time, later: Time)
    requires store.summary.None?
    ensures var (once, accepted) := SaveSummary(store, summary, now);
            var (twice, again) := SaveSummary(once, other, later);
            && (accepted <==> forall i, j | 0 <= i < |summary.evaluation.results| && 0 <= j < |summary.evaluation.results|
                                            && summary.evaluation.results[i].ruleId == summary.evaluation.results[j].ruleId ::
                                i == j)
            && (accepted ==>
                  && once.summary == Some(summary) && once.run.verdict == Some(summary.evaluation.verdict)
                  && twice == once && (again <==> other == summary))
            && (!accepted ==> once == store)
  {
  }

  /** A swap goes through exactly if state and stamp are the loaded ones, and then writes the row but for its pins. */
  lemma SwapMeaning(store: Store, loaded: Run, next: Run)
    ensures var (after, swapped) := Swap(store, loaded, next);
            && (swapped <==> store.run.state == loaded.state && store.run.updatedAt == loaded.updatedAt)
            && after.run == (if swapped then next.(pins := store.run.pins) else store.run)
            && (after.spans, after.bundle, after.summary) == (store.spans, store.bundle, store.summary)
  {
  }
}
