/** What every schedule keeps: facts about the rows, and about what each process has loaded. */
module RunInvariant {
  import opened Wrappers
  import opened Evidence
  import opened Evaluator
  import opened RunDomain
  import opened RunStore
  import opened RunProtocol

  // ---------------------------------------------------------------- facts about the rows

  function Selected(pins: Pins): seq<CompiledRule> {
    SelectRules(pins.policyContent.rules, pins.ruleIds)
  }

  /** The row's evidence fields, once set, describe the stored bundle. */
  predicate EvidenceAgrees(run: Run, bundle: Option<EvidenceBundle>) {
    run.evidenceSha256.Some? ==>
      && bundle.Some?
      && run.evidenceSha256 == Some(bundle.value.evidenceSha256)
      && run.traceCount == |bundle.value.traceIds|
      && run.eventCount == |bundle.value.events|
      && run.traceQuality == Some(bundle.value.traceQuality)
  }

  predicate VerdictAgrees(run: Run, summary: Option<Summary>) {
    run.verdict.Some? ==> summary.Some? && run.verdict.value == summary.value.evaluation.verdict
  }

  predicate SoundRun(store: Store, run: Run) {
    && WellFormedRun(run)
    && EvidenceAgrees(run, store.bundle)
    && VerdictAgrees(run, store.summary)
  }

  /** The run has stopped accepting spans. */
  predicate Frozen(store: Store) {
    Rank(store.run.state) >= 3
  }

  ghost predicate EverFinalizing(store: Store) {
    exists i | 0 <= i < |store.history| :: store.history[i].state == Finalizing
  }

  /** The stored evidence is sealed from exactly the spans assigned to the run. */
  ghost predicate EvidenceIsSealed(env: Env, store: Store) {
    store.bundle.Some? ==>
      && EverFinalizing(store)
      && store.bundle.value ==
           Seal(env, store.run.pins, store.run.completionReason, store.run.terminalState, Assigned(store.spans),
                store.bundle.value.finalizedAt)
  }

  ghost predicate SummaryIsScored(env: Env, store: Store) {
    store.summary.Some? ==>
      && store.bundle.Some?
      && store.summary.value.evaluation == EvaluatePack(Selected(store.run.pins), store.bundle.value, env.parse)
  }

  ghost predicate HistoryOrdered(history: seq<Run>) {
    && (forall i, j | 0 <= i <= j < |history| :: Follows(history[i], history[j]))
    && (forall i | 0 <= i < |history| - 1 :: Succeeds(history[i], history[i + 1]))
  }

  ghost predicate StoreInvariant(env: Env, store: Store) {
    && |store.history| > 0
    && store.history[|store.history| - 1] == store.run
    && HistoryOrdered(store.history)
    && (forall run | run in store.history :: SoundRun(store, run))
    && EvidenceIsSealed(env, store)
    && SummaryIsScored(env, store)
  }

  // ---------------------------------------------------------------- facts about a process

  /** The windows of a retry loop are disjoint, end by `end`, and the row changed inside each. */
  ghost predicate DisjointWindows(windows: seq<Window>, end: nat) {
    && (forall k | 0 <= k < |windows| :: windows[k].readAt < windows[k].swapAt <= end)
    && (forall k | 0 <= k < |windows| - 1 :: windows[k].swapAt <= windows[k + 1].readAt)
  }

  ghost predicate ClaimedForFinalization(store: Store, run: Run) {
    run in store.history && run.state == Finalizing
  }

  /** What a process has loaded is, or was, in the store. */
  ghost predicate ProcInvariant(env: Env, store: Store, proc: Proc) {
    match proc
    case CompleteWrite(_, run) => run in store.history
    case CancelWrite(run) => run in store.history
    case MarkFailedWrite(run) => run in store.history
    case ReconcileRead(_, _, windows) => |windows| < SWAP_ATTEMPTS && DisjointWindows(windows, |store.history|)
    case ReconcileWrite(_, _, windows, readAt, run) =>
      && |windows| < SWAP_ATTEMPTS
      && 0 < readAt <= |store.history|
      && DisjointWindows(windows, readAt)
      && run == store.history[readAt - 1]
    case ReconcileGaveUp(windows) => |windows| == SWAP_ATTEMPTS && DisjointWindows(windows, |store.history|)
    case FinalizeRecover(bundle) => store.bundle == Some(bundle)
    case FinalizeRecoverWrite(bundle, run) => store.bundle == Some(bundle) && ClaimedForFinalization(store, run)
    case FinalizeClaim(run) => run in store.history
    case FinalizeList(run, _) => ClaimedForFinalization(store, run)
    case FinalizeInsert(run, _, spans) => ClaimedForFinalization(store, run) && spans == Assigned(store.spans)
    case FinalizeWrite(run, now, spanCount, bundle) =>
      && ClaimedForFinalization(store, run)
      && spanCount == |Assigned(store.spans)|
      && bundle == Seal(env, run.pins, run.completionReason, run.terminalState, Assigned(store.spans), Some(now))
      && store.bundle.Some? && store.bundle.value.evidenceSha256 == bundle.evidenceSha256
    case EvaluateResume(summary) => store.summary == Some(summary)
    case EvaluateResumeWrite(summary, run) => store.summary == Some(summary) && run in store.history
    case EvaluateLoadBundle(run) => run in store.history
    case EvaluateLoadPack(run, bundle) => run in store.history && store.bundle == Some(bundle)
    case EvaluateSave(summary) =>
      && store.bundle.Some?
      && summary.evaluation == EvaluatePack(Selected(store.run.pins), store.bundle.value, env.parse)
    case EvaluateReread(summary) => store.summary == Some(summary)
    case EvaluateWrite(summary, run) => store.summary == Some(summary) && run in store.history
    case _ => true
  }

  ghost predicate WorldInvariant(env: Env, world: World) {
    && StoreInvariant(env, world.store)
    && forall pid | pid in world.procs :: ProcInvariant(env, world.store, world.procs[pid])
  }

  // ---------------------------------------------------------------- how the rows may evolve

  /** Nothing a process may have relied on is taken back. */
  ghost predicate Evolves(store: Store, store': Store) {
    && |store.history| <= |store'.history|
    && store'.history[..|store.history|] == store.history
    && store'.run.pins == store.run.pins
    && |store.spans| <= |store'.spans|
    && store'.spans[..|store.spans|] == store.spans
    && (store.bundle.Some? ==> store'.bundle == store.bundle)
    && (store.summary.Some? ==> store'.summary == store.summary)
    && (EverFinalizing(store) ==> Assigned(store'.spans) == Assigned(store.spans))
  }

  lemma HistoryKept(store: Store, store': Store, run: Run)
    requires Evolves(store, store') && run in store.history
    ensures run in store'.history
  {
    assert run in store'.history[..|store.history|];
  }

  lemma ClaimIsFinalizing(store: Store, run: Run)
    requires ClaimedForFinalization(store, run)
    ensures EverFinalizing(store)
  {
  }

  /** What other processes do leaves a process's facts true. */
  lemma ProcStable(env: Env, store: Store, store': Store, proc: Proc)
    requires Evolves(store, store')
    requires ProcInvariant(env, store, proc)
    ensures ProcInvariant(env, store', proc)
  {
    forall run | run in store.history ensures run in store'.history {
      HistoryKept(store, store', run);
    }
    match proc
    case ReconcileWrite(_, _, _, readAt, _) =>
      assert store'.history[..|store.history|][readAt - 1] == store'.history[readAt - 1];
    case FinalizeInsert(run, _, _) =>
      ClaimIsFinalizing(store, run);
    case FinalizeWrite(run, _, _, _) =>
      ClaimIsFinalizing(store, run);
    case _ =>
  }

  // ---------------------------------------------------------------- writing the row

  lemma CurrentInHistory(env: Env, store: Store)
    requires StoreInvariant(env, store)
    ensures store.run in store.history
    ensures forall run | run in store.history :: Follows(run, store.run)
  {
    forall run | run in store.history ensures Follows(run, store.run) {
      var i :| 0 <= i < |store.history| && store.history[i] == run;
    }
  }

  lemma AppendOrdered(history: seq<Run>, run: Run)
    requires |history| > 0 && HistoryOrdered(history)
    requires Succeeds(history[|history| - 1], run)
    ensures HistoryOrdered(history + [run])
  {
    var history', n := history + [run], |history|;
    forall i, j | 0 <= i <= j < |history'| ensures Follows(history'[i], history'[j]) {
      if j == n && i < n {
        FollowsTransitive(history[i], history[n - 1], run);
      }
    }
  }

  /** Appending a row value that succeeds the current one keeps every fact about the rows. */
  lemma WriteKeeps(env: Env, store: Store, run: Run)
    requires StoreInvariant(env, store)
    requires Succeeds(store.run, run) && SoundRun(store, run)
    ensures StoreInvariant(env, WriteRow(store, run))
    ensures Evolves(store, WriteRow(store, run))
  {
    var store' := WriteRow(store, run);
    if run != store.run {
      AppendOrdered(store.history, run);
      forall r | r in store'.history ensures SoundRun(store', r) {
      }
      if store.bundle.Some? {
        FinalizingIsFrozen(env, store);
        var i :| 0 <= i < |store.history| && store.history[i].state == Finalizing;
        assert store'.history[i].state == Finalizing;
      }
    }
  }

  /** A successful swap writes a value that followed what was loaded, so it follows the current row. */
  lemma SwapKeeps(env: Env, store: Store, loaded: Run, next: Run)
    requires StoreInvariant(env, store)
    requires loaded in store.history
    requires Succeeds(loaded, next) && SoundRun(store, next)
    ensures var (store', swapped) := Swap(store, loaded, next);
            && StoreInvariant(env, store')
            && Evolves(store, store')
            && (swapped ==> next == store'.run && next in store'.history)
            && (!swapped ==> store' == store && store.run != loaded)
  {
    CurrentInHistory(env, store);
    if store.run.state == loaded.state && store.run.updatedAt == loaded.updatedAt {
      assert Follows(loaded, store.run);
      WriteKeeps(env, store, next);
      CurrentInHistory(env, WriteRow(store, next));
    }
  }

  // ---------------------------------------------------------------- what the local computations produce

  lemma TransitionIsSound(store: Store, run: Run, next: RunState, now: Time)
    requires SoundRun(store, run) && Transition(run, next, now).Ok?
    requires next != Evaluating && next != Completed && next != Settling && next != Finalizing
    ensures Succeeds(run, Transition(run, next, now).value) && SoundRun(store, Transition(run, next, now).value)
  {
  }

  lemma ClaimIsSound(store: Store, run: Run, now: Time)
    requires SoundRun(store, run) && run.state == Settling
    ensures Transition(run, Finalizing, now).Ok?
    ensures var next := Transition(run, Finalizing, now).value;
            Succeeds(run, next) && SoundRun(store, next) && next.state == Finalizing
  {
  }

  lemma SettleIsSound(store: Store, run: Run, reason: CompletionReason, terminalState: Option<string>, until: Time, now: Time)
    requires SoundRun(store, run) && Settle(run, reason, terminalState, until, now).Ok?
    ensures var next := Settle(run, reason, terminalState, until, now).value;
            Succeeds(run, next) && SoundRun(store, next)
  {
  }

  /** Telemetry reconciliation never meets a lifecycle error, and what it writes is sound. */
  lemma ReconciledIsSound(store: Store, run: Run, batch: Batch, settleSeconds: nat)
    requires SoundRun(store, run)
    ensures Reconciled(run, batch, settleSeconds).Ok?
    ensures var next := Reconciled(run, batch, settleSeconds).value;
            Succeeds(run, next) && SoundRun(store, next)
  {
    if Settle(run, TerminalEvent, batch.terminalState, batch.latestReceivedAt + settleSeconds, batch.latestReceivedAt).Ok? {
      SettleIsSound(store, run, TerminalEvent, batch.terminalState,
                    batch.latestReceivedAt + settleSeconds, batch.latestReceivedAt);
    }
  }

  lemma EvidenceWriteIsSound(
    store: Store, run: Run, bundle: EvidenceBundle, finalizedAt: Option<Time>, spanCount: nat, now: Time)
    requires SoundRun(store, run) && run.state == Finalizing
    requires store.bundle.Some? && EvidenceAgrees(WithEvidence(run, bundle, finalizedAt), store.bundle)
    ensures var counted := WithEvidence(run, bundle, finalizedAt).(spanCount := spanCount);
            && Transition(counted, Evaluating, now).Ok?
            && Succeeds(run, Transition(counted, Evaluating, now).value)
            && SoundRun(store, Transition(counted, Evaluating, now).value)
  {
  }

  lemma VerdictWriteIsSound(store: Store, run: Run, summary: Summary, now: Time)
    requires SoundRun(store, run) && store.summary == Some(summary)
    ensures var decided := Transition(run.(verdict := Some(summary.evaluation.verdict)), Completed, now);
            decided.Ok? ==> Succeeds(run, decided.value) && SoundRun(store, decided.value)
  {
  }

  // ---------------------------------------------------------------- the other repository operations

  lemma {:induction false} AssignedAppend(spans: seq<Ingested>, ingested: Ingested)
    ensures Assigned(spans + [ingested]) == Assigned(spans) + if ingested.late then [] else [ingested.span]
  {
    if spans == [] {
      assert spans + [ingested] == [ingested];
    } else {
      assert (spans + [ingested])[1..] == spans[1..] + [ingested];
      AssignedAppend(spans[1..], ingested);
    }
  }

  lemma FinalizingIsFrozen(env: Env, store: Store)
    requires StoreInvariant(env, store) && EverFinalizing(store)
    ensures Frozen(store) && store.run.completionReason.Some?
  {
    CurrentInHistory(env, store);
    var i :| 0 <= i < |store.history| && store.history[i].state == Finalizing;
    assert store.history[i] in store.history;
    assert SoundRun(store, store.history[i]);
  }

  /** Adding a span that is not counted, or one that is counted while spans are accepted, keeps the facts. */
  lemma AppendSpanKeeps(env: Env, store: Store, ingested: Ingested)
    requires StoreInvariant(env, store)
    requires ingested.late || AcceptsSpans(store.run.state)
    ensures StoreInvariant(env, store.(spans := store.spans + [ingested]))
    ensures Evolves(store, store.(spans := store.spans + [ingested]))
  {
    AssignedAppend(store.spans, ingested);
    if EverFinalizing(store) {
      FinalizingIsFrozen(env, store);
      assert Assigned(store.spans + [ingested]) == Assigned(store.spans);
    }
    var store' := store.(spans := store.spans + [ingested]);
    assert forall run | run in store'.history :: SoundRun(store, run);
  }

  lemma InsertSpanKeeps(env: Env, store: Store, span: Span, receivedAt: Time, maxSpans: nat)
    requires StoreInvariant(env, store)
    ensures var store' := InsertSpan(store, span, receivedAt, maxSpans).0;
            StoreInvariant(env, store') && Evolves(store, store')
  {
    CurrentInHistory(env, store);
    var outcome := InsertSpan(store, span, receivedAt, maxSpans).1;
    if outcome == LateAfterFinalize {
      AppendSpanKeeps(env, store, Ingested(span, true));
    } else if outcome == Inserted {
      AppendSpanKeeps(env, store, Ingested(span, false));
      var counted := store.run.(
        lastSeenAt := Some(receivedAt), updatedAt := receivedAt, spanCount := store.run.spanCount + 1);
      WriteKeeps(env, store.(spans := store.spans + [Ingested(span, false)]), counted);
    }
  }

  /**
   * Whoever finalizes offers the same evidence: the store either has it already, with the same
   * digest, or takes it; the conflict over different evidence cannot happen.
   */
  lemma InsertBundleKeeps(env: Env, store: Store, run: Run, now: Time)
    requires StoreInvariant(env, store)
    requires ClaimedForFinalization(store, run)
    ensures var bundle := Seal(env, run.pins, run.completionReason, run.terminalState, Assigned(store.spans), Some(now));
            var (store', accepted) := InsertBundle(store, bundle);
            && accepted
            && StoreInvariant(env, store')
            && Evolves(store, store')
            && store'.bundle.Some? && store'.bundle.value.evidenceSha256 == bundle.evidenceSha256
  {
    CurrentInHistory(env, store);
    assert SoundRun(store, run);
    var bundle := Seal(env, run.pins, run.completionReason, run.terminalState, Assigned(store.spans), Some(now));
    var store' := InsertBundle(store, bundle).0;
    assert Follows(run, store.run);
    if store.bundle.None? {
      forall r | r in store'.history ensures SoundRun(store', r) {
        assert SoundRun(store, r);
      }
      assert EverFinalizing(store');
    }
  }

  lemma SaveSummaryKeeps(env: Env, store: Store, summary: Summary, now: Time)
    requires StoreInvariant(env, store)
    requires store.bundle.Some?
    requires summary.evaluation == EvaluatePack(Selected(store.run.pins), store.bundle.value, env.parse)
    ensures var (store', accepted) := SaveSummary(store, summary, now);
            && StoreInvariant(env, store')
            && Evolves(store, store')
            && (accepted ==> store'.summary == Some(summary))
  {
    if store.summary.None? && DistinctRuleIds(summary.evaluation.results) {
      FinalizingIsFrozen(env, store);
      CurrentInHistory(env, store);
      var saved := store.(summary := Some(summary));
      forall r | r in saved.history ensures SoundRun(saved, r) {
        assert SoundRun(store, r);
      }
      assert StoreInvariant(env, saved);
      var decided := store.run.(
        verdict := Some(summary.evaluation.verdict), completedAt := Some(now), updatedAt := now);
      WriteKeeps(env, saved, decided);
    }
  }

  // ---------------------------------------------------------------- one step

  ghost predicate StepKeeps(env: Env, store: Store, proc: Proc, input: Input) {
    var (store', proc') := Advance(env, store, proc, input);
    && StoreInvariant(env, store')
    && Evolves(store, store')
    && (proc'.Some? ==> ProcInvariant(env, store', proc'.value))
  }

  lemma CompleteStepKeeps(env: Env, store: Store, proc: Proc, input: Input)
    requires StoreInvariant(env, store) && ProcInvariant(env, store, proc)
    requires proc.CompleteWrite?
    ensures StepKeeps(env, store, proc, input)
  {
    var run, request := proc.run, proc.request;
    assert SoundRun(store, run);
    if Completion(run, request, input.now).Ok? {
      SettleIsSound(store, run, request.reason, request.terminalState,
                    input.now + Min(request.settleSeconds, 300), input.now);
      SwapKeeps(env, store, run, Completion(run, request, input.now).value);
    } else {
      EvolvesReflexive(store);
    }
  }

  lemma ClosingStepKeeps(env: Env, store: Store, proc: Proc, input: Input)
    requires StoreInvariant(env, store) && ProcInvariant(env, store, proc)
    requires proc.CancelWrite? || proc.MarkFailedWrite?
    ensures StepKeeps(env, store, proc, input)
  {
    var run, next := proc.run, if proc.CancelWrite? then Cancelled else RunFailed;
    assert SoundRun(store, run);
    if Transition(run, next, input.now).Ok? {
      TransitionIsSound(store, run, next, input.now);
      SwapKeeps(env, store, run, Transition(run, next, input.now).value);
    } else {
      EvolvesReflexive(store);
    }
  }

  /** A failed reconciliation swap proves that the row changed after it was read. */
  lemma ReconcileStepKeeps(env: Env, store: Store, proc: Proc, input: Input)
    requires StoreInvariant(env, store) && ProcInvariant(env, store, proc)
    requires proc.ReconcileWrite?
    ensures StepKeeps(env, store, proc, input)
  {
    var run := proc.run;
    assert run in store.history && SoundRun(store, run);
    ReconciledIsSound(store, run, proc.batch, proc.settleSeconds);
    var next := Reconciled(run, proc.batch, proc.settleSeconds).value;
    if next != run {
      SwapKeeps(env, store, run, next);
    }
  }

  lemma FinalizeStepKeeps(env: Env, store: Store, proc: Proc, input: Input)
    requires StoreInvariant(env, store) && ProcInvariant(env, store, proc)
    requires proc.FinalizeClaim? || proc.FinalizeInsert?
    ensures StepKeeps(env, store, proc, input)
  {
    var run := proc.run;
    assert SoundRun(store, run);
    match proc
    case FinalizeClaim(_) =>
      if run.state == Settling && !StillSettling(run, input.now) {
        ClaimIsSound(store, run, input.now);
        SwapKeeps(env, store, run, Transition(run, Finalizing, input.now).value);
      }
    case FinalizeInsert(_, now, _) =>
      InsertBundleKeeps(env, store, run, now);
  }

  lemma EvidenceStepKeeps(env: Env, store: Store, proc: Proc, input: Input)
    requires StoreInvariant(env, store) && ProcInvariant(env, store, proc)
    requires proc.FinalizeRecoverWrite? || proc.FinalizeWrite?
    ensures StepKeeps(env, store, proc, input)
  {
    var run := proc.run;
    assert SoundRun(store, run);
    match proc
    case FinalizeRecoverWrite(bundle, _) =>
      EvidenceWriteIsSound(store, run, bundle, bundle.finalizedAt, run.spanCount, input.now);
      SwapKeeps(env, store, run,
                Transition(WithEvidence(run, bundle, bundle.finalizedAt), Evaluating, input.now).value);
    case FinalizeWrite(_, now, spanCount, bundle) =>
      SealedAlike(env, store, run, bundle, now);
      EvidenceWriteIsSound(store, run, bundle, Some(now), spanCount, now);
      SwapKeeps(env, store, run,
                Transition(WithEvidence(run, bundle, Some(now)).(spanCount := spanCount), Evaluating, now).value);
  }

  /** A finalizer's own bundle agrees with the stored one in everything but the time it was finalized. */
  lemma SealedAlike(env: Env, store: Store, run: Run, bundle: EvidenceBundle, now: Time)
    requires StoreInvariant(env, store) && store.bundle.Some?
    requires ClaimedForFinalization(store, run)
    requires bundle == Seal(env, run.pins, run.completionReason, run.terminalState, Assigned(store.spans), Some(now))
    ensures bundle == store.bundle.value.(finalizedAt := Some(now))
  {
    CurrentInHistory(env, store);
    assert Follows(run, store.run) && SoundRun(store, run);
  }

  lemma VerdictStepKeeps(env: Env, store: Store, proc: Proc, input: Input)
    requires StoreInvariant(env, store) && ProcInvariant(env, store, proc)
    requires proc.EvaluateResumeWrite? || proc.EvaluateWrite?
    ensures StepKeeps(env, store, proc, input)
  {
    var run, summary := proc.run, proc.summary;
    assert SoundRun(store, run);
    VerdictWriteIsSound(store, run, summary, input.now);
    var decided := Transition(run.(verdict := Some(summary.evaluation.verdict)), Completed, input.now);
    if decided.Ok? {
      SwapKeeps(env, store, run, decided.value);
    }
  }

  /** The pack whose content hash is pinned has the pinned rules. */
  lemma ScoringStepKeeps(env: Env, store: Store, proc: Proc, input: Input)
    requires StoreInvariant(env, store) && ProcInvariant(env, store, proc)
    requires proc.EvaluateLoadPack?
    ensures StepKeeps(env, store, proc, input)
  {
    CurrentInHistory(env, store);
    assert Follows(proc.run, store.run);
    EvolvesReflexive(store);
  }

  lemma SavingStepKeeps(env: Env, store: Store, proc: Proc, input: Input)
    requires StoreInvariant(env, store) && ProcInvariant(env, store, proc)
    requires proc.EvaluateSave?
    ensures StepKeeps(env, store, proc, input)
  {
    SaveSummaryKeeps(env, store, proc.summary, input.now);
  }

  lemma EvolvesReflexive(store: Store)
    ensures Evolves(store, store)
  {
  }

  predicate ReadsForCompletion(proc: Proc) {
    proc.CompleteRead? || proc.CancelRead? || proc.MarkFailedRead? || proc.ReconcileRead? || proc.ReconcileGaveUp?
  }

  predicate ReadsForFinalization(proc: Proc) {
    proc.FinalizeCheck? || proc.FinalizeRecover? || proc.FinalizeRead? || proc.FinalizeList?
  }

  predicate ReadsForEvaluation(proc: Proc) {
    proc.EvaluateCheck? || proc.EvaluateResume? || proc.EvaluateRead? || proc.EvaluateLoadBundle? || proc.EvaluateReread?
  }

  lemma CompletionReadKeeps(env: Env, store: Store, proc: Proc, input: Input)
    requires StoreInvariant(env, store) && ProcInvariant(env, store, proc)
    requires ReadsForCompletion(proc)
    ensures StepKeeps(env, store, proc, input)
  {
    CurrentInHistory(env, store);
    EvolvesReflexive(store);
  }

  lemma FinalizationReadKeeps(env: Env, store: Store, proc: Proc, input: Input)
    requires StoreInvariant(env, store) && ProcInvariant(env, store, proc)
    requires ReadsForFinalization(proc)
    ensures StepKeeps(env, store, proc, input)
  {
    CurrentInHistory(env, store);
    EvolvesReflexive(store);
  }

  lemma EvaluationReadKeeps(env: Env, store: Store, proc: Proc, input: Input)
    requires StoreInvariant(env, store) && ProcInvariant(env, store, proc)
    requires ReadsForEvaluation(proc)
    ensures StepKeeps(env, store, proc, input)
  {
    CurrentInHistory(env, store);
    EvolvesReflexive(store);
  }

  /** Every repository call keeps the facts about the rows and about its own process. */
  lemma AdvanceKeeps(env: Env, store: Store, proc: Proc, input: Input)
    requires StoreInvariant(env, store) && ProcInvariant(env, store, proc)
    ensures StepKeeps(env, store, proc, input)
  {
    if ReadsForCompletion(proc) {
      CompletionReadKeeps(env, store, proc, input);
    } else if ReadsForFinalization(proc) {
      FinalizationReadKeeps(env, store, proc, input);
    } else if ReadsForEvaluation(proc) {
      EvaluationReadKeeps(env, store, proc, input);
    } else if proc.CompleteWrite? {
      CompleteStepKeeps(env, store, proc, input);
    } else if proc.CancelWrite? || proc.MarkFailedWrite? {
      ClosingStepKeeps(env, store, proc, input);
    } else if proc.ReconcileWrite? {
      ReconcileStepKeeps(env, store, proc, input);
    } else if proc.FinalizeClaim? || proc.FinalizeInsert? {
      FinalizeStepKeeps(env, store, proc, input);
    } else if proc.FinalizeRecoverWrite? || proc.FinalizeWrite? {
      EvidenceStepKeeps(env, store, proc, input);
    } else if proc.EvaluateResumeWrite? || proc.EvaluateWrite? {
      VerdictStepKeeps(env, store, proc, input);
    } else if proc.EvaluateLoadPack? {
      ScoringStepKeeps(env, store, proc, input);
    } else {
      SavingStepKeeps(env, store, proc, input);
    }
  }

  // ---------------------------------------------------------------- whole schedules

  lemma ApplyKeeps(env: Env, world: World, action: Action)
    requires WorldInvariant(env, world)
    ensures WorldInvariant(env, Apply(env, world, action))
    ensures Evolves(world.store, Apply(env, world, action).store)
  {
    var world' := Apply(env, world, action);
    match action
    case Spawn(_, _) =>
    case Crash(_) =>
    case Step(pid, input) =>
      if pid in world.procs {
        AdvanceKeeps(env, world.store, world.procs[pid], input);
        forall other | other in world'.procs && other != pid
          ensures ProcInvariant(env, world'.store, world'.procs[other])
        {
          ProcStable(env, world.store, world'.store, world.procs[other]);
        }
      }
    case Receive(span, receivedAt, maxSpans) =>
      InsertSpanKeeps(env, world.store, span, receivedAt, maxSpans);
      forall pid | pid in world'.procs ensures ProcInvariant(env, world'.store, world'.procs[pid]) {
        ProcStable(env, world.store, world'.store, world.procs[pid]);
      }
  }

  lemma InitialKeeps(env: Env, world: World)
    requires Initial(world)
    ensures WorldInvariant(env, world)
  {
  }

  /** Every world reached by any schedule satisfies the invariant. */
  lemma {:induction false} ScheduleKeeps(env: Env, world: World, schedule: seq<Action>)
    requires Initial(world)
    ensures WorldInvariant(env, Execute(env, world, schedule))
    decreases |schedule|
  {
    if schedule == [] {
      InitialKeeps(env, world);
    } else {
      ScheduleKeeps(env, world, schedule[..|schedule| - 1]);
      ApplyKeeps(env, Execute(env, world, schedule[..|schedule| - 1]), schedule[|schedule| - 1]);
    }
  }
}
