/**
 * The time of finalization is written twice, into the bundle and onto the row, and the digest does not cover
 * it. When do the two agree?
 */
module RunTimes {
  import opened Wrappers
  import opened Evidence
  import opened RunDomain
  import opened RunStore
  import opened RunProtocol
  import opened RunInvariant
  import opened RunSafety
  import opened RunStamps

  /** The row shows no time of finalization other than that of the stored evidence. */
  predicate TimesAgree(store: Store) {
    store.run.finalizedAt.Some? ==> store.bundle.Some? && store.run.finalizedAt == store.bundle.value.finalizedAt
  }

  // ---------------------------------------------------------------- the row's time is written once

  predicate TimesFollow(earlier: Run, later: Run) {
    earlier.finalizedAt.Some? || earlier.state == later.state ==> later.finalizedAt == earlier.finalizedAt
  }

  predicate TimeIsSound(run: Run) {
    && (Rank(run.state) <= 3 ==> run.finalizedAt.None?)
    && (run.finalizedAt.Some? ==> run.evidenceSha256.Some?)
  }

  ghost predicate TimeInvariant(store: Store) {
    && (forall i, j | 0 <= i <= j < |store.history| :: TimesFollow(store.history[i], store.history[j]))
    && (forall run | run in store.history :: TimeIsSound(run))
  }

  lemma WriteKeepsTimes(env: Env, store: Store, next: Run)
    requires StoreInvariant(env, store) && TimeInvariant(store)
    requires TimeIsSound(next) && Succeeds(store.run, next) && TimesFollow(store.run, next)
    ensures TimeInvariant(WriteRow(store, next))
  {
    CurrentInHistory(env, store);
    var history', n := WriteRow(store, next).history, |store.history|;
    forall i | 0 <= i < n ensures TimesFollow(store.history[i], next) {
      assert store.history[i] in store.history;
      assert TimesFollow(store.history[i], store.history[n - 1]);
      assert Follows(store.history[i], store.run);
    }
  }

  /** What a step proposes keeps the time of the row it loaded, unless it finalizes. */
  lemma ProposedTime(env: Env, store: Store, proc: Proc, input: Input)
    requires ProcInvariant(env, store, proc) && Proposal(proc, input).Some?
    ensures var (loaded, next) := Proposal(proc, input).value;
            && (TimeIsSound(loaded) ==> TimeIsSound(next))
            && (if proc.FinalizeWrite? then next.finalizedAt == Some(proc.now)
                else if proc.FinalizeRecoverWrite? then store.bundle.Some? && next.finalizedAt == store.bundle.value.finalizedAt
                else next.finalizedAt == loaded.finalizedAt)
            && (proc.FinalizeWrite? || proc.FinalizeRecoverWrite? ==> loaded.state == Finalizing)
            && (proc.FinalizeWrite? ==> store.bundle.Some?)
  {
  }

  /** Whatever the row became, if the facts about the rows were kept, it succeeds the row there was. */
  lemma WrittenSucceeds(env: Env, store: Store, written: Run)
    requires StoreInvariant(env, store) && StoreInvariant(env, WriteRow(store, written)) && written != store.run
    ensures Succeeds(store.run, written)
  {
    var history' := WriteRow(store, written).history;
    assert Succeeds(history'[|store.history| - 1], history'[|store.history|]);
  }

  /** A row that was loaded in the present state shows the present time. */
  lemma LoadedTime(env: Env, store: Store, loaded: Run)
    requires StoreInvariant(env, store) && TimeInvariant(store)
    requires loaded in store.history && loaded.state == store.run.state
    ensures loaded.finalizedAt == store.run.finalizedAt && TimeIsSound(loaded)
  {
    var i :| 0 <= i < |store.history| && store.history[i] == loaded;
    assert TimesFollow(store.history[i], store.history[|store.history| - 1]);
  }

  lemma SwapKeepsTimes(env: Env, store: Store, loaded: Run, next: Run)
    requires StoreInvariant(env, store) && TimeInvariant(store)
    requires loaded in store.history && StoreInvariant(env, Swap(store, loaded, next).0)
    requires TimeIsSound(loaded) ==> TimeIsSound(next)
    requires next.finalizedAt == loaded.finalizedAt || loaded.state == Finalizing
    ensures TimeInvariant(Swap(store, loaded, next).0)
    ensures Swap(store, loaded, next).1 ==> loaded.finalizedAt == store.run.finalizedAt
  {
    var (after, swapped) := Swap(store, loaded, next);
    if swapped {
      LoadedTime(env, store, loaded);
      var written := next.(pins := store.run.pins);
      if written != store.run {
        WrittenSucceeds(env, store, written);
        assert store.run in store.history by { CurrentInHistory(env, store); }
        WriteKeepsTimes(env, store, written);
      }
    }
  }

  lemma AdvanceKeepsTimes(env: Env, store: Store, proc: Proc, input: Input)
    requires StoreInvariant(env, store) && TimeInvariant(store) && ProcInvariant(env, store, proc)
    ensures TimeInvariant(Advance(env, store, proc, input).0)
  {
    if proc.EvaluateSave? {
      SaveKeepsTimes(env, store, proc.summary, input);
    } else if !proc.FinalizeInsert? {
      StepIsItsProposal(env, store, proc, input);
      if Proposal(proc, input).Some? {
        AdvanceKeeps(env, store, proc, input);
        LoadedIsSound(env, store, proc, input);
        ProposedTime(env, store, proc, input);
        SwapKeepsTimes(env, store, Proposal(proc, input).value.0, Proposal(proc, input).value.1);
      }
    }
  }

  lemma SaveKeepsTimes(env: Env, store: Store, summary: Summary, input: Input)
    requires StoreInvariant(env, store) && TimeInvariant(store)
    ensures TimeInvariant(SaveSummary(store, summary, input.now).0)
  {
    CurrentInHistory(env, store);
    var decided := store.run.(
      verdict := Some(summary.evaluation.verdict), completedAt := Some(input.now), updatedAt := input.now);
    WriteKeepsTimes(env, store, decided);
  }

  // ---------------------------------------------------------------- one step

  /** A finalizer writes the row it loaded with its own time, which is not that of the stored evidence. */
  predicate WritesAnotherTime(store: Store, proc: Proc) {
    && proc.FinalizeWrite?
    && store.run.state == proc.run.state && store.run.updatedAt == proc.run.updatedAt
    && (store.bundle.None? || store.bundle.value.finalizedAt != Some(proc.now))
  }

  /** While the times agree, a step makes them differ exactly if it is such a write; and it never mends them. */
  lemma TimesDifferIff(env: Env, store: Store, proc: Proc, input: Input)
    requires StoreInvariant(env, store) && TimeInvariant(store) && ProcInvariant(env, store, proc)
    ensures TimesAgree(Advance(env, store, proc, input).0) <==> TimesAgree(store) && !WritesAnotherTime(store, proc)
  {
    if proc.EvaluateSave? {
      SavingKeepsTheTime(env, store, proc, input);
    } else if proc.FinalizeInsert? {
      StoringKeepsTheTime(env, store, proc, input);
    } else {
      StepIsItsProposal(env, store, proc, input);
      if Proposal(proc, input).Some? {
        AdvanceKeeps(env, store, proc, input);
        LoadedIsSound(env, store, proc, input);
        ProposedTime(env, store, proc, input);
        ProposalTimesDifferIff(env, store, proc, Proposal(proc, input).value.0, Proposal(proc, input).value.1);
      }
    }
  }

  lemma SavingKeepsTheTime(env: Env, store: Store, proc: Proc, input: Input)
    requires proc.EvaluateSave?
    ensures TimesAgree(Advance(env, store, proc, input).0) <==> TimesAgree(store)
  {
  }

  /** A row that shows a time when the evidence is stored has evidence already. */
  lemma StoringKeepsTheTime(env: Env, store: Store, proc: Proc, input: Input)
    requires StoreInvariant(env, store) && TimeInvariant(store) && proc.FinalizeInsert?
    ensures TimesAgree(Advance(env, store, proc, input).0) <==> TimesAgree(store)
  {
    CurrentInHistory(env, store);
    assert SoundRun(store, store.run) && TimeIsSound(store.run);
  }

  lemma ProposalTimesDifferIff(env: Env, store: Store, proc: Proc, loaded: Run, next: Run)
    requires StoreInvariant(env, store) && TimeInvariant(store)
    requires loaded in store.history && StoreInvariant(env, Swap(store, loaded, next).0)
    requires TimeIsSound(loaded) ==> TimeIsSound(next)
    requires proc.FinalizeWrite? ==> proc.run == loaded && store.bundle.Some? && next.finalizedAt == Some(proc.now)
    requires proc.FinalizeRecoverWrite? ==> store.bundle.Some? && next.finalizedAt == store.bundle.value.finalizedAt
    requires !proc.FinalizeWrite? && !proc.FinalizeRecoverWrite? ==> next.finalizedAt == loaded.finalizedAt
    requires proc.FinalizeWrite? || proc.FinalizeRecoverWrite? ==> loaded.state == Finalizing
    ensures TimesAgree(Swap(store, loaded, next).0) <==> TimesAgree(store) && !WritesAnotherTime(store, proc)
  {
    CurrentInHistory(env, store);
    SwapKeepsTimes(env, store, loaded, next);
    SwappedTime(store, proc, loaded, next);
  }

  lemma SwappedTime(store: Store, proc: Proc, loaded: Run, next: Run)
    requires Swap(store, loaded, next).1 ==> loaded.finalizedAt == store.run.finalizedAt && TimeIsSound(store.run)
    requires proc.FinalizeWrite? ==> proc.run == loaded && store.bundle.Some? && next.finalizedAt == Some(proc.now)
    requires proc.FinalizeRecoverWrite? ==> store.bundle.Some? && next.finalizedAt == store.bundle.value.finalizedAt
    requires !proc.FinalizeWrite? && !proc.FinalizeRecoverWrite? ==> next.finalizedAt == loaded.finalizedAt
    requires proc.FinalizeWrite? || proc.FinalizeRecoverWrite? ==> loaded.state == Finalizing
    ensures TimesAgree(Swap(store, loaded, next).0) <==> TimesAgree(store) && !WritesAnotherTime(store, proc)
  {
  }

  // ---------------------------------------------------------------- whole schedules

  predicate WritesAnotherTimeAt(env: Env, start: World, schedule: seq<Action>, k: nat)
    requires k < |schedule|
  {
    var world := RunStamps.At(env, start, schedule, k);
    Stepping(world, schedule[k]).Some? && WritesAnotherTime(world.store, Stepping(world, schedule[k]).value)
  }

  lemma ActionKeepsTimes(env: Env, world: World, action: Action)
    requires WorldInvariant(env, world) && TimeInvariant(world.store)
    ensures TimeInvariant(Apply(env, world, action).store)
    ensures TimesAgree(Apply(env, world, action).store) <==>
              TimesAgree(world.store)
              && !(Stepping(world, action).Some? && WritesAnotherTime(world.store, Stepping(world, action).value))
  {
    if Stepping(world, action).Some? {
      AdvanceKeepsTimes(env, world.store, Stepping(world, action).value, action.input);
      TimesDifferIff(env, world.store, Stepping(world, action).value, action.input);
    } else if action.Receive? {
      ReceiveKeepsTimes(env, world.store, action.span, action.receivedAt, action.maxSpans);
    }
  }

  lemma ReceiveKeepsTimes(env: Env, store: Store, span: Span, receivedAt: Time, maxSpans: nat)
    requires StoreInvariant(env, store) && TimeInvariant(store)
    ensures var after := InsertSpan(store, span, receivedAt, maxSpans).0;
            TimeInvariant(after) && (TimesAgree(after) <==> TimesAgree(store))
  {
    CurrentInHistory(env, store);
    var counted := store.run.(
      lastSeenAt := Some(receivedAt), updatedAt := receivedAt, spanCount := store.run.spanCount + 1);
    WriteKeepsTimes(env, store, counted);
  }

  /** No finalizer wrote another time before position `n`. */
  ghost predicate OneTimeUpTo(env: Env, start: World, schedule: seq<Action>, n: nat)
    requires n <= |schedule|
  {
    forall k: nat | k < n :: !WritesAnotherTimeAt(env, start, schedule, k)
  }

  lemma OneTimeNext(env: Env, start: World, schedule: seq<Action>, n: nat)
    requires n < |schedule|
    ensures OneTimeUpTo(env, start, schedule, n + 1) <==>
              OneTimeUpTo(env, start, schedule, n) && !WritesAnotherTimeAt(env, start, schedule, n)
  {
  }

  lemma {:induction false} TimesAlong(env: Env, start: World, schedule: seq<Action>, n: nat)
    requires Initial(start) && n <= |schedule|
    ensures TimeInvariant(RunStamps.At(env, start, schedule, n).store)
    ensures TimesAgree(RunStamps.At(env, start, schedule, n).store) <==> OneTimeUpTo(env, start, schedule, n)
  {
    if n == 0 {
      assert RunStamps.At(env, start, schedule, 0) == start;
    } else {
      TimesAlong(env, start, schedule, n - 1);
      TimesNext(env, start, schedule, n - 1);
      OneTimeNext(env, start, schedule, n - 1);
    }
  }

  lemma TimesNext(env: Env, start: World, schedule: seq<Action>, k: nat)
    requires Initial(start) && k < |schedule| && TimeInvariant(RunStamps.At(env, start, schedule, k).store)
    ensures var before, after := RunStamps.At(env, start, schedule, k).store, RunStamps.At(env, start, schedule, k + 1).store;
            && TimeInvariant(after)
            && (TimesAgree(after) <==> TimesAgree(before) && !WritesAnotherTimeAt(env, start, schedule, k))
  {
    ScheduleKeeps(env, start, schedule[..k]);
    AtStep(env, start, schedule, k);
    ActionKeepsTimes(env, RunStamps.At(env, start, schedule, k), schedule[k]);
  }

  /**
   * After a whole schedule the row shows the time of the stored evidence, if it shows any, if and only if no
   * finalizer wrote a row with a time other than that of the evidence stored by then.
   */
  lemma TimesAgreeIff(env: Env, start: World, schedule: seq<Action>)
    requires Initial(start)
    ensures TimesAgree(Execute(env, start, schedule).store) <==>
              forall k: nat | k < |schedule| :: !WritesAnotherTimeAt(env, start, schedule, k)
  {
    TimesAlong(env, start, schedule, |schedule|);
    assert schedule[..|schedule|] == schedule;
  }
}
