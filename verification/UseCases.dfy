/** Each use case as one uninterrupted call, and that it is exactly the protocol run without interference. */
module UseCases {
  import opened Wrappers
  import opened Evidence
  import opened Evaluator
  import opened RunDomain
  import opened RunStore
  import opened RunProtocol
  import opened RunInvariant
  import opened RunSafety

  /** Writes the row a transition leads to; the flag tells whether the use case succeeded. */
  function WriteIfAllowed(store: Store, next: Result<Run, DomainError>): (Store, bool) {
    match next
    case Err(_) => (store, false)
    case Ok(run) => (WriteRow(store, run), true)
  }

  function CompleteRun(store: Store, request: CompletionRequest, now: Time): (Store, bool) {
    WriteIfAllowed(store, Completion(store.run, request, now))
  }

  function CancelRun(store: Store, now: Time): (Store, bool) {
    WriteIfAllowed(store, Transition(store.run, Cancelled, now))
  }

  function MarkRunFailed(store: Store, now: Time): Store {
    if IsTerminal(store.run.state) then store else WriteRow(store, store.run.(state := RunFailed, updatedAt := now))
  }

  function ReconcileRun(store: Store, batch: Batch, settleSeconds: nat): (Store, bool) {
    WriteIfAllowed(store, Reconciled(store.run, batch, settleSeconds))
  }

  function FinalizeRun(env: Env, store: Store, now: Time): (Store, bool) {
    var run := store.run;
    if store.bundle.Some? then
      if run.state != Finalizing then (store, true)
      else
        var bundle := store.bundle.value;
        (WriteRow(store, WithEvidence(run, bundle, bundle.finalizedAt).(state := Evaluating, updatedAt := now)), true)
    else if !(run.state == Finalizing || (run.state == Settling && !StillSettling(run, now))) then (store, false)
    else
      var claimed :=
        if run.state == Finalizing then store else WriteRow(store, run.(state := Finalizing, updatedAt := now));
      (Sealed(env, claimed, now), true)
  }

  /** What finalization writes once it holds the run in Finalizing. */
  function Sealed(env: Env, store: Store, now: Time): Store {
    var run, spans := store.run, Assigned(store.spans);
    var bundle := Seal(env, run.pins, run.completionReason, run.terminalState, spans, Some(now));
    WriteRow(store.(bundle := Some(bundle)), WithEvidence(run, bundle, Some(now)).(
      spanCount := |spans|, state := Evaluating, updatedAt := now))
  }

  function EvaluateRun(env: Env, store: Store, input: Input): (Store, bool) {
    if store.summary.Some? then
      if store.run.state != Evaluating then (store, true)
      else ShowVerdict(store, store.summary.value, input.now)
    else if store.bundle.None? || input.pack.None?
            || ContentSha256(input.pack.value) != store.run.pins.policyContent then (store, false)
    else
      var summary := Summary(Score(env, store.run, input.pack.value, store.bundle.value), input.nonce);
      SaveAndShow(store, summary, input.now)
  }

  /** A summary saved for a run that can no longer be completed stays, but the use case fails. */
  function SaveAndShow(store: Store, summary: Summary, now: Time): (Store, bool) {
    var (saved, accepted) := SaveSummary(store, summary, now);
    if accepted then ShowVerdict(saved, summary, now) else (saved, false)
  }

  function ShowVerdict(store: Store, summary: Summary, now: Time): (Store, bool) {
    WriteIfAllowed(store, Transition(store.run.(verdict := Some(summary.evaluation.verdict)), Completed, now))
  }

  // ---------------------------------------------------------------- relation to the protocol

  /** A process about to make a repository call. */
  datatype Moment = Moment(store: Store, proc: Proc)

  ghost predicate Calls(env: Env, input: Input, moment: Moment, store: Store, proc: Option<Proc>) {
    Advance(env, moment.store, moment.proc, input) == (store, proc)
  }

  /** All repository calls of one process with nothing in between, from the first to its return. */
  ghost predicate Uninterrupted(env: Env, input: Input, moments: seq<Moment>, final: Store) {
    && |moments| > 0
    && (forall i | 0 <= i < |moments| - 1 ::
          Calls(env, input, moments[i], moments[i + 1].store, Some(moments[i + 1].proc)))
    && Calls(env, input, moments[|moments| - 1], final, None)
  }

  ghost predicate RunsTo(env: Env, store: Store, proc: Proc, input: Input, final: Store) {
    exists moments :: Uninterrupted(env, input, moments, final) && moments[0] == Moment(store, proc)
  }

  lemma {:induction false} UninterruptedKeeps(env: Env, input: Input, moments: seq<Moment>, final: Store)
    requires Uninterrupted(env, input, moments, final)
    requires StoreInvariant(env, moments[0].store) && ProcInvariant(env, moments[0].store, moments[0].proc)
    ensures StoreInvariant(env, final) && Evolves(moments[0].store, final)
  {
    AdvanceKeeps(env, moments[0].store, moments[0].proc, input);
    if |moments| > 1 {
      assert Calls(env, input, moments[0], moments[1].store, Some(moments[1].proc));
      UninterruptedKeeps(env, input, moments[1..], final);
      EvolvesTransitive(moments[0].store, moments[1].store, final);
    }
  }

  /** A use case keeps every fact about the rows and takes nothing back. */
  lemma UseCaseKeeps(env: Env, store: Store, proc: Proc, input: Input, final: Store)
    requires RunsTo(env, store, proc, input, final) && IsStart(proc)
    requires StoreInvariant(env, store)
    ensures StoreInvariant(env, final) && Evolves(store, final) && Follows(store.run, final.run)
  {
    var moments :| Uninterrupted(env, input, moments, final) && moments[0] == Moment(store, proc);
    UninterruptedKeeps(env, input, moments, final);
    CurrentInHistory(env, store);
    HistoryKept(store, final, store.run);
    CurrentInHistory(env, final);
  }

  /** Completion, cancellation and marking as failed are the protocol's processes without interference. */
  lemma WritesAreUninterrupted(env: Env, store: Store, request: CompletionRequest, input: Input)
    ensures RunsTo(env, store, CompleteRead(request), input, CompleteRun(store, request, input.now).0)
    ensures RunsTo(env, store, CancelRead, input, CancelRun(store, input.now).0)
    ensures RunsTo(env, store, MarkFailedRead, input, MarkRunFailed(store, input.now))
  {
    var completing := [Moment(store, CompleteRead(request)), Moment(store, CompleteWrite(request, store.run))];
    assert Uninterrupted(env, input, completing, CompleteRun(store, request, input.now).0);
    var cancelling := [Moment(store, CancelRead), Moment(store, CancelWrite(store.run))];
    assert Uninterrupted(env, input, cancelling, CancelRun(store, input.now).0);
    var failing := [Moment(store, MarkFailedRead)]
                   + if IsTerminal(store.run.state) then [] else [Moment(store, MarkFailedWrite(store.run))];
    assert Uninterrupted(env, input, failing, MarkRunFailed(store, input.now));
  }

  lemma ReconcileIsUninterrupted(env: Env, store: Store, batch: Batch, settleSeconds: nat, input: Input)
    ensures RunsTo(env, store, ReconcileRead(batch, settleSeconds, []), input,
                   ReconcileRun(store, batch, settleSeconds).0)
  {
    var moments := [
      Moment(store, ReconcileRead(batch, settleSeconds, [])),
      Moment(store, ReconcileWrite(batch, settleSeconds, [], |store.history|, store.run))];
    assert Uninterrupted(env, input, moments, ReconcileRun(store, batch, settleSeconds).0);
  }

  lemma RecoveryIsUninterrupted(env: Env, store: Store, input: Input)
    requires store.bundle.Some?
    ensures RunsTo(env, store, FinalizeCheck, input, FinalizeRun(env, store, input.now).0)
  {
    var bundle := store.bundle.value;
    var moments := [Moment(store, FinalizeCheck), Moment(store, FinalizeRecover(bundle))]
      + if store.run.state == Finalizing then [Moment(store, FinalizeRecoverWrite(bundle, store.run))] else [];
    assert Uninterrupted(env, input, moments, FinalizeRun(env, store, input.now).0);
  }

  /** One more call in front. */
  lemma Prepend(env: Env, input: Input, store: Store, proc: Proc, store': Store, proc': Proc, final: Store)
    requires Calls(env, input, Moment(store, proc), store', Some(proc'))
    requires RunsTo(env, store', proc', input, final)
    ensures RunsTo(env, store, proc, input, final)
  {
    var moments :| Uninterrupted(env, input, moments, final) && moments[0] == Moment(store', proc');
    var longer := [Moment(store, proc)] + moments;
    assert longer[1..] == moments;
    forall i | 0 <= i < |longer| - 1
      ensures Calls(env, input, longer[i], longer[i + 1].store, Some(longer[i + 1].proc))
    {
      if i > 0 {
        assert longer[i] == moments[i - 1] && longer[i + 1] == moments[i];
      }
    }
    assert Uninterrupted(env, input, longer, final);
  }

  lemma LastCall(env: Env, input: Input, store: Store, proc: Proc, final: Store)
    requires Calls(env, input, Moment(store, proc), final, None)
    ensures RunsTo(env, store, proc, input, final)
  {
    assert Uninterrupted(env, input, [Moment(store, proc)], final);
  }

  lemma SealedRowIsWritten(env: Env, store: Store, input: Input)
    requires store.run.state == Finalizing
    ensures var run, now, spans := store.run, input.now, Assigned(store.spans);
            var bundle := Seal(env, run.pins, run.completionReason, run.terminalState, spans, Some(now));
            Calls(env, input, Moment(store.(bundle := Some(bundle)), FinalizeWrite(run, now, |spans|, bundle)),
                  Sealed(env, store, now), None)
  {
  }

  lemma SealIsInserted(env: Env, store: Store, input: Input)
    requires store.bundle.None?
    ensures var run, now, spans := store.run, input.now, Assigned(store.spans);
            var bundle := Seal(env, run.pins, run.completionReason, run.terminalState, spans, Some(now));
            && Calls(env, input, Moment(store, FinalizeInsert(run, now, spans)),
                     store.(bundle := Some(bundle)), Some(FinalizeWrite(run, now, |spans|, bundle)))
            && Calls(env, input, Moment(store, FinalizeList(run, now)), store, Some(FinalizeInsert(run, now, spans)))
  {
  }

  lemma SealingIsUninterrupted(env: Env, store: Store, input: Input)
    requires store.bundle.None? && store.run.state == Finalizing
    ensures RunsTo(env, store, FinalizeList(store.run, input.now), input, Sealed(env, store, input.now))
  {
    var run, now, spans := store.run, input.now, Assigned(store.spans);
    var bundle := Seal(env, run.pins, run.completionReason, run.terminalState, spans, Some(now));
    var stored, final := store.(bundle := Some(bundle)), Sealed(env, store, now);
    SealedRowIsWritten(env, store, input);
    SealIsInserted(env, store, input);
    LastCall(env, input, stored, FinalizeWrite(run, now, |spans|, bundle), final);
    Prepend(env, input, store, FinalizeInsert(run, now, spans), stored, FinalizeWrite(run, now, |spans|, bundle), final);
    Prepend(env, input, store, FinalizeList(run, now), store, FinalizeInsert(run, now, spans), final);
  }

  lemma ClaimIsUninterrupted(env: Env, store: Store, input: Input)
    requires store.bundle.None?
    ensures RunsTo(env, store, FinalizeClaim(store.run), input, FinalizeRun(env, store, input.now).0)
  {
    var run, now := store.run, input.now;
    var final := FinalizeRun(env, store, now).0;
    if run.state == Finalizing || (run.state == Settling && !StillSettling(run, now)) {
      var claimed :=
        if run.state == Finalizing then store else WriteRow(store, run.(state := Finalizing, updatedAt := now));
      SealingIsUninterrupted(env, claimed, input);
      Prepend(env, input, store, FinalizeClaim(run), claimed, FinalizeList(claimed.run, now), final);
    } else {
      LastCall(env, input, store, FinalizeClaim(run), final);
    }
  }

  lemma FinalizeIsUninterrupted(env: Env, store: Store, input: Input)
    ensures RunsTo(env, store, FinalizeCheck, input, FinalizeRun(env, store, input.now).0)
  {
    if store.bundle.Some? {
      RecoveryIsUninterrupted(env, store, input);
    } else {
      var final := FinalizeRun(env, store, input.now).0;
      ClaimIsUninterrupted(env, store, input);
      Prepend(env, input, store, FinalizeRead, store, FinalizeClaim(store.run), final);
      Prepend(env, input, store, FinalizeCheck, store, FinalizeRead, final);
    }
  }

  lemma SavingIsUninterrupted(env: Env, store: Store, summary: Summary, input: Input)
    requires store.summary.None?
    ensures RunsTo(env, store, EvaluateSave(summary), input, SaveAndShow(store, summary, input.now).0)
  {
    var (saved, accepted) := SaveSummary(store, summary, input.now);
    var final := SaveAndShow(store, summary, input.now).0;
    if accepted {
      LastCall(env, input, saved, EvaluateWrite(summary, saved.run), final);
      Prepend(env, input, saved, EvaluateReread(summary), saved, EvaluateWrite(summary, saved.run), final);
      Prepend(env, input, store, EvaluateSave(summary), saved, EvaluateReread(summary), final);
    } else {
      LastCall(env, input, store, EvaluateSave(summary), final);
    }
  }

  lemma ScoringIsUninterrupted(env: Env, store: Store, input: Input)
    requires store.summary.None?
    ensures RunsTo(env, store, EvaluateLoadBundle(store.run), input, EvaluateRun(env, store, input).0)
  {
    var run, final := store.run, EvaluateRun(env, store, input).0;
    if store.bundle.None? {
      LastCall(env, input, store, EvaluateLoadBundle(run), final);
    } else {
      var bundle := store.bundle.value;
      if input.pack.None? || ContentSha256(input.pack.value) != run.pins.policyContent {
        LastCall(env, input, store, EvaluateLoadPack(run, bundle), final);
      } else {
        var summary := Summary(Score(env, run, input.pack.value, bundle), input.nonce);
        SavingIsUninterrupted(env, store, summary, input);
        Prepend(env, input, store, EvaluateLoadPack(run, bundle), store, EvaluateSave(summary), final);
      }
      Prepend(env, input, store, EvaluateLoadBundle(run), store, EvaluateLoadPack(run, bundle), final);
    }
  }

  lemma ResumeIsUninterrupted(env: Env, store: Store, input: Input)
    requires store.summary.Some?
    ensures RunsTo(env, store, EvaluateCheck, input, EvaluateRun(env, store, input).0)
  {
    var summary, final := store.summary.value, EvaluateRun(env, store, input).0;
    if store.run.state == Evaluating {
      LastCall(env, input, store, EvaluateResumeWrite(summary, store.run), final);
      ResumptionBegins(env, store, input, final);
    } else {
      LastCall(env, input, store, EvaluateResume(summary), final);
      Prepend(env, input, store, EvaluateCheck, store, EvaluateResume(summary), final);
    }
  }

  lemma ResumptionBegins(env: Env, store: Store, input: Input, final: Store)
    requires store.summary.Some? && store.run.state == Evaluating
    requires RunsTo(env, store, EvaluateResumeWrite(store.summary.value, store.run), input, final)
    ensures RunsTo(env, store, EvaluateCheck, input, final)
  {
    var summary := store.summary.value;
    Prepend(env, input, store, EvaluateResume(summary), store, EvaluateResumeWrite(summary, store.run), final);
    Prepend(env, input, store, EvaluateCheck, store, EvaluateResume(summary), final);
  }

  lemma EvaluateIsUninterrupted(env: Env, store: Store, input: Input)
    ensures RunsTo(env, store, EvaluateCheck, input, EvaluateRun(env, store, input).0)
  {
    var final := EvaluateRun(env, store, input).0;
    if store.summary.Some? {
      ResumeIsUninterrupted(env, store, input);
    } else {
      ScoringIsUninterrupted(env, store, input);
      FirstEvaluationBegins(env, store, input, final);
    }
  }

  lemma FirstEvaluationBegins(env: Env, store: Store, input: Input, final: Store)
    requires store.summary.None? && RunsTo(env, store, EvaluateLoadBundle(store.run), input, final)
    ensures RunsTo(env, store, EvaluateCheck, input, final)
  {
    Prepend(env, input, store, EvaluateRead, store, EvaluateLoadBundle(store.run), final);
    Prepend(env, input, store, EvaluateCheck, store, EvaluateRead, final);
  }
}
