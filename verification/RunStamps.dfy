/**
 * How far the compare-and-swap on (state, updated_at) protects a row. Stamps are reused, so a swap may
 * succeed although the row was overtaken: it changed since it was loaded, under the same state and stamp.
 * For every step of every reachable world this says exactly when that breaks the settle window, loses a
 * counted span, shortens a settle time or leaves a verdict on a run that was not completed; and it says
 * what a schedule must avoid so that none of this happens.
 */
module RunStamps {
  import opened Wrappers
  import opened Evidence
  import opened Evaluator
  import opened RunDomain
  import opened RunStore
  import opened RunProtocol
  import opened RunInvariant
  import opened RunSafety

  /** The row changed after it was loaded, yet a swap that expects the loaded row still succeeds. */
  predicate Overtaken(store: Store, loaded: Run) {
    loaded.state == store.run.state && loaded.updatedAt == store.run.updatedAt && loaded != store.run
  }

  /** A run leaves its settle window only at or after the settle time that was stored. */
  predicate WindowRespected(earlier: Run, later: Run) {
    earlier.state == Settling && later.state == Finalizing ==>
      earlier.settleUntil.Some? && earlier.settleUntil.value <= later.updatedAt
  }

  predicate CountIsExact(store: Store) {
    store.run.spanCount == |Assigned(store.spans)|
  }

  predicate VerdictIsSaved(store: Store) {
    store.run.verdict.Some? <==> store.summary.Some?
  }

  // ---------------------------------------------------------------- one step and its proposal

  /** A step that is neither an evidence insert nor a summary write is exactly the swap it proposes. */
  lemma StepIsItsProposal(env: Env, store: Store, proc: Proc, input: Input)
    requires !proc.EvaluateSave? && !proc.FinalizeInsert?
    ensures var store' := Advance(env, store, proc, input).0;
            match Proposal(proc, input)
            case None => store' == store
            case Some((loaded, next)) => store' == Swap(store, loaded, next).0
  {
  }

  /** The steps that write a verdict. */
  predicate Decides(proc: Proc) {
    proc.EvaluateWrite? || proc.EvaluateResumeWrite?
  }

  /** What a step may write, in terms of the row it loaded. */
  lemma ProposalFits(env: Env, store: Store, proc: Proc, input: Input)
    requires ProcInvariant(env, store, proc)
    requires Proposal(proc, input).Some? && WellFormedRun(Proposal(proc, input).value.0)
    ensures var (loaded, next) := Proposal(proc, input).value;
            && WindowRespected(loaded, next)
            && next.spanCount == (if proc.FinalizeWrite? then |Assigned(store.spans)| else loaded.spanCount)
            && (if Decides(proc) then next.verdict.Some? && store.summary.Some? && next.state == Completed
                else next.verdict == loaded.verdict)
            && next.pins == loaded.pins
            && (next.state == Finalizing && loaded.state == Settling <==> proc.FinalizeClaim?)
            && (proc.FinalizeClaim? ==> !StillSettling(loaded, input.now) && next.updatedAt == input.now)
  {
  }

  /** The row a step loaded is one the store has had, and it is well formed. */
  lemma LoadedIsSound(env: Env, store: Store, proc: Proc, input: Input)
    requires StoreInvariant(env, store) && ProcInvariant(env, store, proc)
    requires Proposal(proc, input).Some?
    ensures var loaded := Proposal(proc, input).value.0;
            && loaded in store.history && WellFormedRun(loaded) && Follows(loaded, store.run)
            && (loaded.verdict.Some? ==> store.summary.Some?)
    ensures WellFormedRun(store.run)
  {
    var loaded := Proposal(proc, input).value.0;
    assert loaded in store.history;
    assert SoundRun(store, loaded);
    CurrentInHistory(env, store);
    assert SoundRun(store, store.run);
  }

  // ---------------------------------------------------------------- exactly when a step breaks what is protected

  /** A claim whose own row was ripe closes a row that is not: the stored settle time still lies ahead. */
  predicate ClosesEarly(store: Store, proc: Proc, input: Input) {
    && proc.FinalizeClaim? && proc.run.state == Settling && !StillSettling(proc.run, input.now)
    && Overtaken(store, proc.run)
    && StillSettling(store.run, input.now)
  }

  /** A step writes back a span count from before the row was overtaken. */
  predicate LosesCount(store: Store, proc: Proc, input: Input) {
    && !proc.FinalizeWrite?
    && Proposal(proc, input).Some?
    && Overtaken(store, Proposal(proc, input).value.0)
    && Proposal(proc, input).value.0.spanCount != store.run.spanCount
  }

  /** A step that decides nothing writes back a row without the verdict that was saved meanwhile. */
  predicate LosesVerdict(store: Store, proc: Proc, input: Input) {
    && !Decides(proc)
    && Proposal(proc, input).Some?
    && Overtaken(store, Proposal(proc, input).value.0)
    && Proposal(proc, input).value.0.verdict.None? && store.run.verdict.Some?
  }

  lemma WindowIsBrokenIff(env: Env, store: Store, proc: Proc, input: Input)
    requires StoreInvariant(env, store) && ProcInvariant(env, store, proc)
    ensures !WindowRespected(store.run, Advance(env, store, proc, input).0.run) <==> ClosesEarly(store, proc, input)
  {
    if !proc.EvaluateSave? && !proc.FinalizeInsert? {
      StepIsItsProposal(env, store, proc, input);
      if Proposal(proc, input).Some? {
        LoadedIsSound(env, store, proc, input);
        ProposalFits(env, store, proc, input);
        SwappedWindow(store, proc, input, Proposal(proc, input).value.0, Proposal(proc, input).value.1);
      }
    }
  }

  lemma SwappedWindow(store: Store, proc: Proc, input: Input, loaded: Run, next: Run)
    requires WellFormedRun(store.run) && WellFormedRun(loaded)
    requires Proposal(proc, input).Some? && loaded == Proposal(proc, input).value.0
    requires WindowRespected(loaded, next)
    requires next.state == Finalizing && loaded.state == Settling <==> proc.FinalizeClaim?
    requires proc.FinalizeClaim? ==> !StillSettling(loaded, input.now) && next.updatedAt == input.now
    ensures !WindowRespected(store.run, Swap(store, loaded, next).0.run) <==> ClosesEarly(store, proc, input)
  {
  }

  lemma CountIsLostIff(env: Env, store: Store, proc: Proc, input: Input)
    requires StoreInvariant(env, store) && ProcInvariant(env, store, proc)
    requires CountIsExact(store)
    ensures !CountIsExact(Advance(env, store, proc, input).0) <==> LosesCount(store, proc, input)
  {
    if !proc.EvaluateSave? && !proc.FinalizeInsert? {
      StepIsItsProposal(env, store, proc, input);
      if Proposal(proc, input).Some? {
        LoadedIsSound(env, store, proc, input);
        ProposalFits(env, store, proc, input);
        SwappedCount(store, proc, input);
      }
    }
  }

  lemma SwappedCount(store: Store, proc: Proc, input: Input)
    requires CountIsExact(store) && Proposal(proc, input).Some?
    requires var (loaded, next) := Proposal(proc, input).value;
             next.spanCount == if proc.FinalizeWrite? then |Assigned(store.spans)| else loaded.spanCount
    ensures var (loaded, next) := Proposal(proc, input).value;
            !CountIsExact(Swap(store, loaded, next).0) <==> LosesCount(store, proc, input)
  {
  }

  lemma VerdictIsLostIff(env: Env, store: Store, proc: Proc, input: Input)
    requires StoreInvariant(env, store) && ProcInvariant(env, store, proc)
    requires VerdictIsSaved(store)
    ensures !VerdictIsSaved(Advance(env, store, proc, input).0) <==> LosesVerdict(store, proc, input)
  {
    if !proc.EvaluateSave? && !proc.FinalizeInsert? {
      StepIsItsProposal(env, store, proc, input);
      if Proposal(proc, input).Some? {
        LoadedIsSound(env, store, proc, input);
        ProposalFits(env, store, proc, input);
        SwappedVerdict(store, proc, input);
      }
    }
  }

  lemma SwappedVerdict(store: Store, proc: Proc, input: Input)
    requires VerdictIsSaved(store) && Proposal(proc, input).Some?
    requires var (loaded, next) := Proposal(proc, input).value;
             && (loaded.verdict.Some? ==> store.summary.Some?)
             && (if Decides(proc) then next.verdict.Some? && store.summary.Some? else next.verdict == loaded.verdict)
    ensures var (loaded, next) := Proposal(proc, input).value;
            !VerdictIsSaved(Swap(store, loaded, next).0) <==> LosesVerdict(store, proc, input)
  {
  }

  /** The settle time a batch asks for. */
  function ProposedSettle(batch: Batch, settleSeconds: nat, run: Run): Time {
    Min(batch.latestReceivedAt + settleSeconds, run.hardDeadlineAt)
  }

  /** A gateway extends the settle time it loaded, but to less than another has stored since. */
  predicate ShortensSettling(store: Store, proc: Proc)
    requires proc.ReconcileWrite?
  {
    var loaded, proposed := proc.run, ProposedSettle(proc.batch, proc.settleSeconds, proc.run);
    && loaded.state == Settling && proc.batch.insertedAny
    && Overtaken(store, loaded)
    && loaded.settleUntil.Some? && loaded.settleUntil.value < proposed
    && store.run.settleUntil.Some? && proposed < store.run.settleUntil.value
  }

  /** Reconciliation shortens the stored settle time exactly when it swaps over a later one under an equal stamp. */
  lemma ReconciliationShortensIff(env: Env, store: Store, proc: Proc, input: Input)
    requires StoreInvariant(env, store) && ProcInvariant(env, store, proc)
    requires proc.ReconcileWrite?
    ensures var before, after := store.run.settleUntil, Advance(env, store, proc, input).0.run.settleUntil;
            (before.Some? && (after.None? || after.value < before.value)) <==> ShortensSettling(store, proc)
  {
    StepIsItsProposal(env, store, proc, input);
    if Proposal(proc, input).Some? {
      LoadedIsSound(env, store, proc, input);
    }
  }

  /** A finished run that shows a verdict although it was not completed. */
  predicate ShowsStrayVerdict(run: Run) {
    (run.state == Cancelled || run.state == RunFailed) && run.verdict.Some?
  }

  /**
   * The two ways to get there: a swap closes a run from a loaded row that already carries a verdict, or a
   * summary is saved for a run that is closed already.
   */
  predicate LeavesStrayVerdict(store: Store, proc: Proc, input: Input) {
    || (Proposal(proc, input).Some?
        && var (loaded, next) := Proposal(proc, input).value;
           && (next.state == Cancelled || next.state == RunFailed)
           && loaded.state == store.run.state && loaded.updatedAt == store.run.updatedAt
           && loaded.verdict.Some?)
    || (proc.EvaluateSave? && (store.run.state == Cancelled || store.run.state == RunFailed)
        && store.summary.None? && DistinctRuleIds(proc.summary.evaluation.results))
  }

  lemma StrayVerdictIff(env: Env, store: Store, proc: Proc, input: Input)
    requires StoreInvariant(env, store) && ProcInvariant(env, store, proc)
    requires !ShowsStrayVerdict(store.run)
    ensures ShowsStrayVerdict(Advance(env, store, proc, input).0.run) <==> LeavesStrayVerdict(store, proc, input)
  {
    if proc.EvaluateSave? {
      SavedStrayVerdict(env, store, proc.summary, input);
    } else if proc.FinalizeInsert? {
      assert Advance(env, store, proc, input).0.run == store.run;
    } else {
      StepIsItsProposal(env, store, proc, input);
      if Proposal(proc, input).Some? {
        LoadedIsSound(env, store, proc, input);
        ProposalFits(env, store, proc, input);
        SwappedStrayVerdict(store, proc, input);
      }
    }
  }

  lemma SavedStrayVerdict(env: Env, store: Store, summary: Summary, input: Input)
    requires !ShowsStrayVerdict(store.run)
    ensures ShowsStrayVerdict(Advance(env, store, EvaluateSave(summary), input).0.run)
       <==> LeavesStrayVerdict(store, EvaluateSave(summary), input)
  {
  }

  lemma SwappedStrayVerdict(store: Store, proc: Proc, input: Input)
    requires !ShowsStrayVerdict(store.run) && Proposal(proc, input).Some? && !proc.EvaluateSave?
    requires var (loaded, next) := Proposal(proc, input).value;
             if Decides(proc) then next.state == Completed else next.verdict == loaded.verdict
    ensures var (loaded, next) := Proposal(proc, input).value;
            ShowsStrayVerdict(Swap(store, loaded, next).0.run) <==> LeavesStrayVerdict(store, proc, input)
  {
  }

  /** In particular, cancelling or failing a run leaves a verdict on it if and only if the loaded row carried one. */
  lemma ClosingKeepsTheLoadedVerdict(env: Env, store: Store, proc: Proc, input: Input)
    requires StoreInvariant(env, store) && ProcInvariant(env, store, proc)
    requires proc.CancelWrite? || proc.MarkFailedWrite?
    requires !IsTerminal(store.run.state) && IsTerminal(Advance(env, store, proc, input).0.run.state)
    ensures Advance(env, store, proc, input).0.run.verdict == proc.run.verdict
    ensures proc.run.verdict.Some? ==>
              store.summary.Some? && proc.run.verdict.value == store.summary.value.evaluation.verdict
  {
    assert proc.run in store.history && SoundRun(store, proc.run);
  }

  // ---------------------------------------------------------------- whole schedules

  /** The process that takes the step, if the action is one that steps a process. */
  function Stepping(world: World, action: Action): Option<Proc> {
    if action.Step? && action.pid in world.procs then Some(world.procs[action.pid]) else None
  }

  predicate Breaks(world: World, action: Action) {
    Stepping(world, action).Some? &&
    var proc := Stepping(world, action).value;
    || ClosesEarly(world.store, proc, action.input)
    || LosesCount(world.store, proc, action.input)
    || LosesVerdict(world.store, proc, action.input)
  }

  predicate Leaves(world: World, action: Action) {
    Stepping(world, action).Some? && LeavesStrayVerdict(world.store, Stepping(world, action).value, action.input)
  }

  predicate Exact(store: Store) {
    CountIsExact(store) && VerdictIsSaved(store)
  }

  /** One action of a reachable world keeps window, count and verdict exactly when it is not one that breaks them. */
  lemma ActionBreaksIff(env: Env, world: World, action: Action)
    requires WorldInvariant(env, world) && Exact(world.store)
    ensures var store' := Apply(env, world, action).store;
            !(WindowRespected(world.store.run, store'.run) && Exact(store')) <==> Breaks(world, action)
  {
    if Stepping(world, action).Some? {
      var proc := Stepping(world, action).value;
      WindowIsBrokenIff(env, world.store, proc, action.input);
      CountIsLostIff(env, world.store, proc, action.input);
      VerdictIsLostIff(env, world.store, proc, action.input);
    } else if action.Receive? {
      ReceiveKeepsExact(world.store, action.span, action.receivedAt, action.maxSpans);
    }
  }

  lemma ReceiveKeepsExact(store: Store, span: Span, receivedAt: Time, maxSpans: nat)
    requires Exact(store)
    ensures Exact(InsertSpan(store, span, receivedAt, maxSpans).0)
    ensures WindowRespected(store.run, InsertSpan(store, span, receivedAt, maxSpans).0.run)
  {
    AssignedAppend(store.spans, Ingested(span, true));
    AssignedAppend(store.spans, Ingested(span, false));
  }

  function At(env: Env, start: World, schedule: seq<Action>, k: nat): World
    requires k <= |schedule|
  {
    Execute(env, start, schedule[..k])
  }

  lemma AtStep(env: Env, start: World, schedule: seq<Action>, k: nat)
    requires k < |schedule|
    ensures At(env, start, schedule, k + 1) == Apply(env, At(env, start, schedule, k), schedule[k])
  {
    assert schedule[..k + 1][..k] == schedule[..k];
  }

  /** Up to position `n` the window was respected by every change and count and verdict were right throughout. */
  ghost predicate ProtectedUpTo(env: Env, start: World, schedule: seq<Action>, n: nat)
    requires n <= |schedule|
  {
    && (forall k | 0 <= k <= n :: Exact(At(env, start, schedule, k).store))
    && (forall k | 0 <= k < n ::
          WindowRespected(At(env, start, schedule, k).store.run, At(env, start, schedule, k + 1).store.run))
  }

  ghost predicate NothingBreaksUpTo(env: Env, start: World, schedule: seq<Action>, n: nat)
    requires n <= |schedule|
  {
    forall k | 0 <= k < n :: !Breaks(At(env, start, schedule, k), schedule[k])
  }

  /**
   * Over a whole schedule: the settle window is always respected, the span count always the number of
   * assigned spans, and a verdict shown exactly when a summary is stored, if and only if no step swaps over
   * an overtaken row that differs in settle time, count or verdict.
   */
  lemma {:induction false} ProtectedIff(env: Env, start: World, schedule: seq<Action>, n: nat)
    requires Initial(start) && n <= |schedule|
    ensures ProtectedUpTo(env, start, schedule, n) <==> NothingBreaksUpTo(env, start, schedule, n)
  {
    if n == 0 {
      assert Exact(start.store);
    } else {
      ProtectedIff(env, start, schedule, n - 1);
      var world := At(env, start, schedule, n - 1);
      ScheduleKeeps(env, start, schedule[..n - 1]);
      AtStep(env, start, schedule, n - 1);
      if Exact(world.store) {
        ActionBreaksIff(env, world, schedule[n - 1]);
      }
      assert ProtectedUpTo(env, start, schedule, n) <==>
               (ProtectedUpTo(env, start, schedule, n - 1) && Exact(At(env, start, schedule, n).store)
                && WindowRespected(world.store.run, At(env, start, schedule, n).store.run));
    }
  }

  lemma ActionLeavesIff(env: Env, world: World, action: Action)
    requires WorldInvariant(env, world) && !ShowsStrayVerdict(world.store.run)
    ensures ShowsStrayVerdict(Apply(env, world, action).store.run) <==> Leaves(world, action)
  {
    if Stepping(world, action).Some? {
      StrayVerdictIff(env, world.store, Stepping(world, action).value, action.input);
    }
  }

  /** Once finished, a run shows a verdict exactly if it was completed. */
  predicate VerdictMeansCompleted(run: Run) {
    IsTerminal(run.state) ==> (run.verdict.Some? <==> run.state == Completed)
  }

  predicate VerdictIsRightAt(env: Env, start: World, schedule: seq<Action>, k: nat) {
    k <= |schedule| ==> VerdictMeansCompleted(At(env, start, schedule, k).store.run)
  }

  predicate LeavesAt(env: Env, start: World, schedule: seq<Action>, k: nat) {
    k < |schedule| && Leaves(At(env, start, schedule, k), schedule[k])
  }

  /**
   * Over a whole schedule: at every moment a finished run shows a verdict exactly if it was completed, if and
   * only if no run was closed from a row that carried a verdict and no summary was saved for a closed run.
   */
  lemma VerdictMeansCompletedIff(env: Env, start: World, schedule: seq<Action>)
    requires Initial(start)
    ensures (forall k: nat :: VerdictIsRightAt(env, start, schedule, k)) <==>
            (forall k: nat :: !LeavesAt(env, start, schedule, k))
  {
    if k: nat :| LeavesAt(env, start, schedule, k) {
      if VerdictIsRightAt(env, start, schedule, k) {
        VerdictStep(env, start, schedule, k);
        assert !VerdictIsRightAt(env, start, schedule, k + 1);
      }
    } else {
      forall k: nat ensures VerdictIsRightAt(env, start, schedule, k) {
        VerdictIsRightUntil(env, start, schedule, k);
      }
    }
  }

  lemma {:induction false} VerdictIsRightUntil(env: Env, start: World, schedule: seq<Action>, k: nat)
    requires Initial(start) && forall i: nat :: !LeavesAt(env, start, schedule, i)
    ensures VerdictIsRightAt(env, start, schedule, k)
  {
    if k == 0 {
      assert At(env, start, schedule, 0) == start;
    } else if k <= |schedule| {
      VerdictIsRightUntil(env, start, schedule, k - 1);
      VerdictStep(env, start, schedule, k - 1);
      assert !LeavesAt(env, start, schedule, k - 1);
    }
  }

  lemma VerdictStep(env: Env, start: World, schedule: seq<Action>, k: nat)
    requires Initial(start) && k < |schedule|
    requires VerdictMeansCompleted(At(env, start, schedule, k).store.run)
    ensures VerdictMeansCompleted(At(env, start, schedule, k + 1).store.run)
       <==> !Leaves(At(env, start, schedule, k), schedule[k])
  {
    ScheduleKeeps(env, start, schedule[..k]);
    ScheduleKeeps(env, start, schedule[..k + 1]);
    AtStep(env, start, schedule, k);
    CurrentIsWellFormed(env, At(env, start, schedule, k + 1).store);
    ActionLeavesIff(env, At(env, start, schedule, k), schedule[k]);
  }

  lemma CurrentIsWellFormed(env: Env, store: Store)
    requires StoreInvariant(env, store)
    ensures WellFormedRun(store.run)
  {
    CurrentInHistory(env, store);
    assert SoundRun(store, store.run);
  }

  // ---------------------------------------------------------------- what a schedule must avoid

  /** The row a process has loaded and may still swap over. */
  function Held(proc: Proc): Option<Run> {
    match proc
    case CompleteWrite(_, run) => Some(run)
    case CancelWrite(run) => Some(run)
    case MarkFailedWrite(run) => Some(run)
    case ReconcileWrite(_, _, _, _, run) => Some(run)
    case FinalizeRecoverWrite(_, run) => Some(run)
    case FinalizeClaim(run) => Some(run)
    case FinalizeList(run, _) => Some(run)
    case FinalizeInsert(run, _, _) => Some(run)
    case FinalizeWrite(run, _, _, _) => Some(run)
    case EvaluateResumeWrite(_, run) => Some(run)
    case EvaluateWrite(_, run) => Some(run)
    case _ => None
  }

  /** A process other than the acting one holds a row with the given state and stamp. */
  predicate HeldElsewhere(world: World, action: Action, state: RunState, stamp: Time) {
    exists pid | pid in world.procs && !(action.Step? && action.pid == pid) ::
      var held := Held(world.procs[pid]);
      held.Some? && held.value.state == state && held.value.updatedAt == stamp
  }

  /** If the action writes the row, nobody else holds a row with the state and stamp that are written. */
  predicate UnsharedWrite(env: Env, world: World, action: Action) {
    var run := Apply(env, world, action).store.run;
    run == world.store.run || !HeldElsewhere(world, action, run.state, run.updatedAt)
  }

  ghost predicate UnsharedSchedule(env: Env, start: World, schedule: seq<Action>) {
    forall k | 0 <= k < |schedule| :: UnsharedWrite(env, At(env, start, schedule, k), schedule[k])
  }

  /** Whoever holds a row with the current state and stamp holds the current row. */
  ghost predicate NobodyIsOvertaken(world: World) {
    forall pid | pid in world.procs && Held(world.procs[pid]).Some? ::
      !Overtaken(world.store, Held(world.procs[pid]).value)
  }

  /** A process that reads holds the current row afterwards, if any. */
  lemma ReadHoldsCurrent(env: Env, store: Store, proc: Proc, input: Input)
    requires ReadsForCompletion(proc) || ReadsForEvaluation(proc) || (ReadsForFinalization(proc) && !proc.FinalizeList?)
    ensures var (store', proc') := Advance(env, store, proc, input);
            && store' == store
            && (proc'.Some? && Held(proc'.value).Some? ==> Held(proc'.value).value == store.run)
  {
  }

  /** Finalization goes on with the row it holds. */
  lemma SealingHoldsOn(env: Env, store: Store, proc: Proc, input: Input)
    requires proc.FinalizeList? || proc.FinalizeInsert?
    ensures var (store', proc') := Advance(env, store, proc, input);
            && store'.run == store.run
            && (proc'.Some? ==> Held(proc'.value) == Some(proc.run))
  {
  }

  /** A successful claim holds the row it wrote. */
  lemma ClaimHoldsCurrent(env: Env, store: Store, proc: Proc, input: Input)
    requires StoreInvariant(env, store) && proc.FinalizeClaim? && proc.run in store.history
    requires !Overtaken(store, proc.run)
    ensures var (store', proc') := Advance(env, store, proc, input);
            proc'.Some? && Held(proc'.value).Some? ==> !Overtaken(store', Held(proc'.value).value)
  {
    if proc.run.state == Settling && !StillSettling(proc.run, input.now) {
      assert SoundRun(store, proc.run);
      ClaimIsSound(store, proc.run, input.now);
      SwapKeeps(env, store, proc.run, Transition(proc.run, Finalizing, input.now).value);
    }
  }

  /** Every other step ends the process or makes it read anew. */
  lemma OthersHoldNothing(env: Env, store: Store, proc: Proc, input: Input)
    requires !ReadsForCompletion(proc) && !ReadsForEvaluation(proc) && !ReadsForFinalization(proc)
    requires !proc.FinalizeClaim? && !proc.FinalizeInsert?
    ensures var (_, proc') := Advance(env, store, proc, input);
            proc'.Some? ==> Held(proc'.value).None?
  {
  }

  /** A process that goes on holds the row it held, the current row, or none. */
  lemma StepHolds(env: Env, store: Store, proc: Proc, input: Input)
    requires StoreInvariant(env, store) && ProcInvariant(env, store, proc)
    requires Held(proc).Some? ==> !Overtaken(store, Held(proc).value)
    ensures var (store', proc') := Advance(env, store, proc, input);
            proc'.Some? && Held(proc'.value).Some? ==> !Overtaken(store', Held(proc'.value).value)
  {
    if proc.FinalizeList? || proc.FinalizeInsert? {
      SealingHoldsOn(env, store, proc, input);
    } else if proc.FinalizeClaim? {
      ClaimHoldsCurrent(env, store, proc, input);
    } else if ReadsForCompletion(proc) || ReadsForEvaluation(proc) || ReadsForFinalization(proc) {
      ReadHoldsCurrent(env, store, proc, input);
    } else {
      OthersHoldNothing(env, store, proc, input);
    }
  }

  lemma UnsharedKeeps(env: Env, world: World, action: Action)
    requires WorldInvariant(env, world) && NobodyIsOvertaken(world)
    requires UnsharedWrite(env, world, action)
    ensures NobodyIsOvertaken(Apply(env, world, action))
  {
    var world' := Apply(env, world, action);
    forall pid | pid in world'.procs && Held(world'.procs[pid]).Some?
      ensures !Overtaken(world'.store, Held(world'.procs[pid]).value)
    {
      if action.Step? && action.pid == pid {
        StepHolds(env, world.store, world.procs[pid], action.input);
      } else {
        assert !action.Spawn? || action.pid != pid ==> world'.procs[pid] == world.procs[pid];
      }
    }
  }

  lemma NothingOvertakenNothingBroken(world: World, action: Action)
    requires NobodyIsOvertaken(world)
    ensures !Breaks(world, action)
  {
    if Stepping(world, action).Some? {
      var proc := Stepping(world, action).value;
      if Proposal(proc, action.input).Some? {
        assert Held(proc) == Some(Proposal(proc, action.input).value.0);
      }
      if proc.FinalizeClaim? {
        assert Held(proc) == Some(proc.run);
      }
    }
  }

  lemma {:induction false} NobodyIsEverOvertaken(env: Env, start: World, schedule: seq<Action>, n: nat)
    requires Initial(start) && n <= |schedule| && UnsharedSchedule(env, start, schedule)
    ensures NobodyIsOvertaken(At(env, start, schedule, n))
  {
    if n > 0 {
      NobodyIsEverOvertaken(env, start, schedule, n - 1);
      ScheduleKeeps(env, start, schedule[..n - 1]);
      AtStep(env, start, schedule, n - 1);
      UnsharedKeeps(env, At(env, start, schedule, n - 1), schedule[n - 1]);
    }
  }

  /**
   * If no write puts a stamp on the row that another process holds it under, then the settle window is
   * always respected, the span count is always exact (on the recovery path too), and a verdict is shown
   * exactly when a summary is stored. Writing a stamp again is allowed.
   */
  lemma UnsharedStampsProtect(env: Env, start: World, schedule: seq<Action>)
    requires Initial(start) && UnsharedSchedule(env, start, schedule)
    ensures ProtectedUpTo(env, start, schedule, |schedule|)
  {
    forall k | 0 <= k < |schedule| ensures !Breaks(At(env, start, schedule, k), schedule[k]) {
      NobodyIsEverOvertaken(env, start, schedule, k);
      NothingOvertakenNothingBroken(At(env, start, schedule, k), schedule[k]);
    }
    ProtectedIff(env, start, schedule, |schedule|);
  }

  /** Under the same hypothesis reconciliation never shortens the settle window. */
  lemma ReconciliationOnlyExtends(env: Env, start: World, schedule: seq<Action>, pid: nat, input: Input)
    requires Initial(start) && UnsharedSchedule(env, start, schedule)
    requires pid in Execute(env, start, schedule).procs && Execute(env, start, schedule).procs[pid].ReconcileWrite?
    ensures var world := Execute(env, start, schedule);
            var before, after := world.store.run.settleUntil, Apply(env, world, Step(pid, input)).store.run.settleUntil;
            before.Some? ==> after.Some? && before.value <= after.value
  {
    ScheduleKeeps(env, start, schedule);
    NobodyIsEverOvertaken(env, start, schedule, |schedule|);
    assert schedule[..|schedule|] == schedule;
    var world := Execute(env, start, schedule);
    ReconciliationShortensIff(env, world.store, world.procs[pid], input);
  }

  // ---------------------------------------------------------------- fresh stamps

  predicate FreshWrite(store: Store, store': Store) {
    store'.run == store.run || forall run | run in store.history :: run.updatedAt != store'.run.updatedAt
  }

  /** A stamp the row never had before is held by nobody. */
  lemma FreshIsUnshared(env: Env, world: World, action: Action)
    requires WorldInvariant(env, world)
    requires FreshWrite(world.store, Apply(env, world, action).store)
    ensures UnsharedWrite(env, world, action)
  {
    var run := Apply(env, world, action).store.run;
    if run != world.store.run {
      forall pid | pid in world.procs && Held(world.procs[pid]).Some?
        ensures Held(world.procs[pid]).value.updatedAt != run.updatedAt
      {
        HeldIsFromHistory(env, world.store, world.procs[pid]);
      }
    }
  }

  lemma HeldIsFromHistory(env: Env, store: Store, proc: Proc)
    requires ProcInvariant(env, store, proc) && Held(proc).Some?
    ensures Held(proc).value in store.history
  {
  }

  /** In particular all of it holds when every write carries a stamp the row never had before. */
  lemma FreshStampsProtect(env: Env, start: World, schedule: seq<Action>)
    requires Initial(start)
    requires forall k | 0 <= k < |schedule| ::
               FreshWrite(At(env, start, schedule, k).store, At(env, start, schedule, k + 1).store)
    ensures ProtectedUpTo(env, start, schedule, |schedule|)
  {
    forall k | 0 <= k < |schedule| ensures UnsharedWrite(env, At(env, start, schedule, k), schedule[k]) {
      ScheduleKeeps(env, start, schedule[..k]);
      AtStep(env, start, schedule, k);
      FreshIsUnshared(env, At(env, start, schedule, k), schedule[k]);
    }
    UnsharedStampsProtect(env, start, schedule);
  }

  /**
   * The gateway never meets freshness but can meet the weaker hypothesis: reconciling right after inserting
   * a span writes the stamp of the insert again, and that leaves somebody overtaken if and only if another
   * process had loaded the row under that stamp.
   */
  lemma GatewayReusesItsStamp(env: Env, world: World, pid: nat, input: Input)
    requires WorldInvariant(env, world) && NobodyIsOvertaken(world)
    requires pid in world.procs && world.procs[pid].ReconcileWrite?
    requires world.procs[pid].run == world.store.run
    requires world.store.run.updatedAt == world.procs[pid].batch.latestReceivedAt
    requires Apply(env, world, Step(pid, input)).store.run != world.store.run
    ensures var world' := Apply(env, world, Step(pid, input));
            && world'.store.run.updatedAt == world.store.run.updatedAt
            && !FreshWrite(world.store, world'.store)
            && (NobodyIsOvertaken(world') <==>
                  !HeldElsewhere(world, Step(pid, input), world'.store.run.state, world.store.run.updatedAt))
  {
    CurrentInHistory(env, world.store);
    var world' := Apply(env, world, Step(pid, input));
    assert world'.store.run.updatedAt == world.store.run.updatedAt;
    if HeldElsewhere(world, Step(pid, input), world'.store.run.state, world.store.run.updatedAt) {
      HolderIsOvertaken(env, world, pid, input);
    } else {
      UnsharedKeeps(env, world, Step(pid, input));
    }
  }

  lemma HolderIsOvertaken(env: Env, world: World, pid: nat, input: Input)
    requires WorldInvariant(env, world) && NobodyIsOvertaken(world)
    requires var world' := Apply(env, world, Step(pid, input));
             && world'.store.run != world.store.run
             && world'.store.run.updatedAt == world.store.run.updatedAt
             && HeldElsewhere(world, Step(pid, input), world'.store.run.state, world.store.run.updatedAt)
             && Rank(world.store.run.state) <= Rank(world'.store.run.state)
    ensures !NobodyIsOvertaken(Apply(env, world, Step(pid, input)))
  {
    var world' := Apply(env, world, Step(pid, input));
    var other :| other in world.procs && other != pid && Held(world.procs[other]).Some?
                 && Held(world.procs[other]).value.state == world'.store.run.state
                 && Held(world.procs[other]).value.updatedAt == world.store.run.updatedAt;
    HeldIsFromHistory(env, world.store, world.procs[other]);
    CurrentInHistory(env, world.store);
    assert Follows(Held(world.procs[other]).value, world.store.run);
    assert world'.procs[other] == world.procs[other];
  }

  /** That is the situation after a newly counted span. */
  lemma CountedSpanStampsTheRow(env: Env, world: World, span: Span, receivedAt: Time, maxSpans: nat)
    requires InsertSpan(world.store, span, receivedAt, maxSpans).1 == Inserted
    ensures Apply(env, world, Receive(span, receivedAt, maxSpans)).store.run.updatedAt == receivedAt
  {
  }

  // ---------------------------------------------------------------- overtaken rows do occur

  /**
   * A finalizer has loaded a row whose settle time has passed; then reconciliation extends the stored
   * settle time beyond the finalizer's clock. The finalizer overlooks the extension exactly when the row
   * it loaded was stamped with the receive time the batch reconciles with.
   */
  lemma ExtensionIsOverlookedIff(env: Env, store: Store, batch: Batch, settleSeconds: nat, input: Input)
    requires store.run.state == Settling && store.run.settleUntil.Some? && batch.insertedAny
    requires store.run.settleUntil.value <= input.now
    requires input.now < Min(batch.latestReceivedAt + settleSeconds, store.run.hardDeadlineAt)
    ensures var loaded := store.run;
            var (extended, _) := Advance(env, store, ReconcileWrite(batch, settleSeconds, [], 1, loaded), input);
            var (claimed, _) := Advance(env, extended, FinalizeClaim(loaded), input);
            && extended.run.settleUntil.Some? && extended.run.settleUntil.value > input.now
            && (claimed.run.state == Finalizing <==> loaded.updatedAt == batch.latestReceivedAt)
  {
  }

  /**
   * The gateway itself produces that coincidence: a span counted in the settle window stamps the row, and
   * reconciling its batch keeps the stamp, so a finalizer that loaded the row in between closes the run
   * before the settle time that was stored.
   */
  lemma FinalizerOverlooksTheGateway(
    env: Env, store: Store, span: Span, receivedAt: Time, maxSpans: nat, settleSeconds: nat, input: Input)
    requires store.run.state == Settling && store.run.settleUntil.Some?
    requires InsertSpan(store, span, receivedAt, maxSpans).1 == Inserted
    requires store.run.settleUntil.value <= input.now < Min(receivedAt + settleSeconds, store.run.hardDeadlineAt)
    ensures var counted := InsertSpan(store, span, receivedAt, maxSpans).0;
            var batch := Batch(receivedAt, true, false, None);
            var (extended, _) := Advance(env, counted, ReconcileWrite(batch, settleSeconds, [], 1, counted.run), input);
            var (claimed, _) := Advance(env, extended, FinalizeClaim(counted.run), input);
            && extended.run.settleUntil.value > input.now
            && claimed.run.state == Finalizing
            && !WindowRespected(extended.run, claimed.run)
  {
    var counted := InsertSpan(store, span, receivedAt, maxSpans).0;
    ExtensionIsOverlookedIff(env, counted, Batch(receivedAt, true, false, None), settleSeconds, input);
  }

  /**
   * One gateway shortens another's settle time: both loaded the row that a span received at `late` left;
   * the one with the later batch extends it first, without changing the stamp; the one with the earlier
   * batch then swaps and stores its own, shorter extension.
   */
  lemma GatewayLosesItsExtension(
    env: Env, store: Store, span: Span, early: Time, late: Time, maxSpans: nat, settleSeconds: nat, input: Input)
    requires store.run.state == Settling && store.run.settleUntil.Some?
    requires InsertSpan(store, span, late, maxSpans).1 == Inserted
    requires early < late && late + settleSeconds <= store.run.hardDeadlineAt
    requires store.run.settleUntil.value < early + settleSeconds
    ensures var counted := InsertSpan(store, span, late, maxSpans).0;
            var loaded := counted.run;
            var (extended, _) :=
              Advance(env, counted, ReconcileWrite(Batch(late, true, false, None), settleSeconds, [], 1, loaded), input);
            var (shortened, _) :=
              Advance(env, extended, ReconcileWrite(Batch(early, true, false, None), settleSeconds, [], 1, loaded), input);
            && extended.run.settleUntil == Some(late + settleSeconds)
            && shortened.run.settleUntil == Some(early + settleSeconds)
            && shortened.run.updatedAt == early
  {
  }

  lemma {:induction false} ExecuteTail(env: Env, world: World, action: Action, rest: seq<Action>)
    ensures Execute(env, world, [action] + rest) == Execute(env, Apply(env, world, action), rest)
  {
    ExecuteConcat(env, world, [action], rest);
    assert [action][..0] == [];
  }

  /** A use case started and advanced by one call: it has loaded the row. */
  function Loads(pid: nat, proc: Proc, input: Input): seq<Action> {
    [Spawn(pid, proc), Step(pid, input)]
  }

  lemma ReconciliationLoads(env: Env, world: World, pid: nat, batch: Batch, settleSeconds: nat, input: Input)
    requires pid !in world.procs
    ensures Execute(env, world, Loads(pid, ReconcileRead(batch, settleSeconds, []), input))
         == world.(procs := world.procs[pid := ReconcileWrite(batch, settleSeconds, [], |world.store.history|, world.store.run)])
  {
    ExecuteTail(env, world, Spawn(pid, ReconcileRead(batch, settleSeconds, [])), [Step(pid, input)]);
    var spawned := Apply(env, world, Spawn(pid, ReconcileRead(batch, settleSeconds, [])));
    ExecuteTail(env, spawned, Step(pid, input), []);
    assert [Step(pid, input)] + [] == [Step(pid, input)];
    var loaded := ReconcileWrite(batch, settleSeconds, [], |world.store.history|, world.store.run);
    assert spawned.procs[pid := loaded] == world.procs[pid := loaded];
  }

  /** So it goes in any world with such a row: a span, two gateways that load the row, and their two swaps. */
  lemma ExtensionIsLostInAnyWorld(
    env: Env, world: World, span: Span, early: Time, late: Time, maxSpans: nat, settleSeconds: nat, input: Input)
    requires 2 !in world.procs && 3 !in world.procs
    requires world.store.run.state == Settling && world.store.run.settleUntil.Some?
    requires InsertSpan(world.store, span, late, maxSpans).1 == Inserted
    requires early < late && late + settleSeconds <= world.store.run.hardDeadlineAt
    requires world.store.run.settleUntil.value < early + settleSeconds
    ensures var loading := [Receive(span, late, maxSpans)]
                           + Loads(2, ReconcileRead(Batch(late, true, false, None), settleSeconds, []), input)
                           + Loads(3, ReconcileRead(Batch(early, true, false, None), settleSeconds, []), input);
            && Execute(env, world, loading + [Step(2, input)]).store.run.settleUntil == Some(late + settleSeconds)
            && Execute(env, world, loading + [Step(2, input), Step(3, input)]).store.run.settleUntil
                 == Some(early + settleSeconds)
  {
    var loading := [Receive(span, late, maxSpans)]
                   + Loads(2, ReconcileRead(Batch(late, true, false, None), settleSeconds, []), input)
                   + Loads(3, ReconcileRead(Batch(early, true, false, None), settleSeconds, []), input);
    TwoGatewaysLoad(env, world, Receive(span, late, maxSpans), Batch(late, true, false, None),
                    Batch(early, true, false, None), settleSeconds, input);
    TwoSwaps(env, world, loading, 2, 3, input);
    GatewayLosesItsExtension(env, world.store, span, early, late, maxSpans, settleSeconds, input);
  }

  lemma TwoGatewaysLoad(env: Env, world: World, receive: Action, one: Batch, other: Batch, settleSeconds: nat, input: Input)
    requires 2 !in world.procs && 3 !in world.procs && receive.Receive?
    ensures var counted := Apply(env, world, receive);
            var n := |counted.store.history|;
            Execute(env, world, [receive] + Loads(2, ReconcileRead(one, settleSeconds, []), input)
                                + Loads(3, ReconcileRead(other, settleSeconds, []), input))
              == counted.(procs := counted.procs[2 := ReconcileWrite(one, settleSeconds, [], n, counted.store.run)]
                                                [3 := ReconcileWrite(other, settleSeconds, [], n, counted.store.run)])
  {
    var second, third := Loads(2, ReconcileRead(one, settleSeconds, []), input),
                         Loads(3, ReconcileRead(other, settleSeconds, []), input);
    var counted := Apply(env, world, receive);
    ReconciliationLoads(env, counted, 2, one, settleSeconds, input);
    ReconciliationLoads(env, Execute(env, counted, second), 3, other, settleSeconds, input);
    ExecuteTail(env, world, receive, second);
    ExecuteConcat(env, world, [receive] + second, third);
  }

  /** A created run is completed, at any time before its deadline. */
  lemma RunSettles(env: Env, start: World, request: CompletionRequest, input: Input) returns (schedule: seq<Action>)
    requires Initial(start)
    ensures var world := Execute(env, start, schedule);
            && world.procs == map[] && world.store.spans == [] && world.store.run.state == Settling
            && world.store.run.spanCount == 0 && world.store.run.hardDeadlineAt == start.store.run.hardDeadlineAt
            && world.store.run.settleUntil
                 == Some(Min(input.now + Min(request.settleSeconds, 300), start.store.run.hardDeadlineAt))
  {
    var spawned := Apply(env, start, Spawn(1, CompleteRead(request)));
    var loaded := Apply(env, spawned, Step(1, input));
    var settled := Apply(env, loaded, Step(1, input));
    schedule := [Spawn(1, CompleteRead(request)), Step(1, input), Step(1, input)];
    TwoSwaps(env, start, [Spawn(1, CompleteRead(request))], 1, 1, input);
    assert [Spawn(1, CompleteRead(request))] + [Step(1, input), Step(1, input)] == schedule;
    assert [Spawn(1, CompleteRead(request))][..0] == [];
    assert spawned.procs == map[1 := CompleteRead(request)];
    assert loaded.procs == map[1 := CompleteWrite(request, start.store.run)];
    assert settled.procs == map[];
  }

  /**
   * So two gateways can shorten the settle time of every created run whose deadline is far enough away: a
   * schedule of its own steps leads there, with every process started and its row loaded on the way.
   */
  lemma SettleTimeIsShortened(
    env: Env, start: World, request: CompletionRequest, span: Span, early: Time, late: Time, settleSeconds: nat, input: Input)
    returns (schedule: seq<Action>, shortening: Action)
    requires Initial(start) && early < late && late + settleSeconds <= start.store.run.hardDeadlineAt
    requires input.now + Min(request.settleSeconds, 300) < early + settleSeconds
    ensures Execute(env, start, schedule).store.run.settleUntil == Some(late + settleSeconds)
    ensures Execute(env, start, schedule + [shortening]).store.run.settleUntil == Some(early + settleSeconds)
  {
    var settling := RunSettles(env, start, request, input);
    var world := Execute(env, start, settling);
    ExtensionIsLostInAnyWorld(env, world, span, early, late, 1, settleSeconds, input);
    var loading := [Receive(span, late, 1)]
                   + Loads(2, ReconcileRead(Batch(late, true, false, None), settleSeconds, []), input)
                   + Loads(3, ReconcileRead(Batch(early, true, false, None), settleSeconds, []), input);
    schedule, shortening := settling + (loading + [Step(2, input)]), Step(3, input);
    ExecuteConcat(env, start, settling, loading + [Step(2, input)]);
    ExecuteConcat(env, start, settling, loading + [Step(2, input), Step(3, input)]);
    assert schedule + [shortening] == settling + (loading + [Step(2, input), Step(3, input)]);
  }

  lemma TwoSwaps(env: Env, world: World, before: seq<Action>, p: nat, q: nat, input: Input)
    ensures var middle := Execute(env, world, before);
            && Execute(env, world, before + [Step(p, input)]) == Apply(env, middle, Step(p, input))
            && Execute(env, world, before + [Step(p, input), Step(q, input)])
                 == Apply(env, Apply(env, middle, Step(p, input)), Step(q, input))
  {
    assert (before + [Step(p, input)])[..|before|] == before;
    assert (before + [Step(p, input), Step(q, input)])[..|before| + 1] == before + [Step(p, input)];
  }

  /**
   * A batch older than the row sets the stamp back, and a counted span is lost: a finalizer loads the row a
   * first span left; a second span is counted; the first span's batch is reconciled and stamps the row with
   * the first receive time again; the finalizer then swaps in a row that never counted the second span.
   */
  lemma OlderBatchLosesASpan(
    env: Env, store: Store, first: Span, second: Span, early: Time, late: Time, maxSpans: nat, settleSeconds: nat,
    input: Input)
    requires store.run.state == Settling && store.run.settleUntil.Some? && CountIsExact(store)
    requires var counted := InsertSpan(store, first, early, maxSpans);
             counted.1 == Inserted && InsertSpan(counted.0, second, late, maxSpans).1 == Inserted
    requires store.run.settleUntil.value < early + settleSeconds <= store.run.hardDeadlineAt
    requires store.run.settleUntil.value <= input.now
    ensures var counted := InsertSpan(store, first, early, maxSpans).0;
            var both := InsertSpan(counted, second, late, maxSpans).0;
            var (older, _) :=
              Advance(env, both, ReconcileWrite(Batch(early, true, false, None), settleSeconds, [], 1, both.run), input);
            var (claimed, _) := Advance(env, older, FinalizeClaim(counted.run), input);
            && CountIsExact(older) && older.run.updatedAt == early
            && claimed.run.state == Finalizing
            && claimed.run.spanCount == |Assigned(claimed.spans)| - 1
  {
    var counted := InsertSpan(store, first, early, maxSpans).0;
    var both := InsertSpan(counted, second, late, maxSpans).0;
    ReceiveAppends(store, first, early, maxSpans);
    ReceiveAppends(counted, second, late, maxSpans);
    BatchRestamps(env, both, early, settleSeconds, input);
    var older := Advance(env, both, ReconcileWrite(Batch(early, true, false, None), settleSeconds, [], 1, both.run), input).0;
    StaleClaimSwaps(env, older, counted.run, input);
  }

  /** Reconciling a batch received at `at` extends the settle time and stamps the row with `at`. */
  lemma BatchRestamps(env: Env, store: Store, at: Time, settleSeconds: nat, input: Input)
    requires store.run.state == Settling && store.run.settleUntil.Some?
    requires store.run.settleUntil.value < at + settleSeconds <= store.run.hardDeadlineAt
    ensures var (after, _) :=
              Advance(env, store, ReconcileWrite(Batch(at, true, false, None), settleSeconds, [], 1, store.run), input);
            && after.run == store.run.(settleUntil := Some(at + settleSeconds), updatedAt := at)
            && after.spans == store.spans
  {
  }

  /** A claim of a ripe row goes through whenever state and stamp are still the loaded ones. */
  lemma StaleClaimSwaps(env: Env, store: Store, loaded: Run, input: Input)
    requires loaded.state == Settling && !StillSettling(loaded, input.now)
    requires store.run.state == Settling && store.run.updatedAt == loaded.updatedAt
    ensures var (claimed, _) := Advance(env, store, FinalizeClaim(loaded), input);
            && claimed.run.state == Finalizing && claimed.run.spanCount == loaded.spanCount
            && claimed.spans == store.spans
  {
  }

  lemma ReceiveAppends(store: Store, span: Span, receivedAt: Time, maxSpans: nat)
    requires InsertSpan(store, span, receivedAt, maxSpans).1 == Inserted
    ensures var after := InsertSpan(store, span, receivedAt, maxSpans).0;
            && |Assigned(after.spans)| == |Assigned(store.spans)| + 1
            && after.run == store.run.(
                 lastSeenAt := Some(receivedAt), updatedAt := receivedAt, spanCount := store.run.spanCount + 1)
  {
    AssignedAppend(store.spans, Ingested(span, false));
  }

  /** Recovery after a crash keeps whatever count the claim wrote; only the first finalization counts anew. */
  lemma RecoveryKeepsTheCount(env: Env, store: Store, bundle: EvidenceBundle, input: Input)
    requires store.run.state == Finalizing && store.bundle == Some(bundle)
    ensures var (recovered, _) := Advance(env, store, FinalizeRecoverWrite(bundle, store.run), input);
            && recovered.run.state == Evaluating
            && recovered.run.spanCount == store.run.spanCount
            && (CountIsExact(recovered) <==> CountIsExact(store))
  {
  }

  /**
   * A saved verdict is hidden by a cancellation that loaded the row before the summary was saved, exactly if
   * the clock reading it was saved with equals the stamp of that row.
   */
  lemma StaleCancellationHidesTheVerdictIff(env: Env, store: Store, summary: Summary, save: Input, cancel: Input)
    requires StoreInvariant(env, store) && store.run.state == Evaluating && store.summary.None?
    requires DistinctRuleIds(summary.evaluation.results)
    ensures var (saved, _) := Advance(env, store, EvaluateSave(summary), save);
            var (cancelled, _) := Advance(env, saved, CancelWrite(store.run), cancel);
            && VerdictIsSaved(saved)
            && (LosesVerdict(saved, CancelWrite(store.run), cancel) <==> save.now == store.run.updatedAt)
            && ((cancelled.run.state == Cancelled && cancelled.run.verdict.None?) <==> save.now == store.run.updatedAt)
            && cancelled.summary == Some(summary)
  {
    CurrentInHistory(env, store);
    assert SoundRun(store, store.run);
  }

  /** Cancelling between the two writes of an evaluation leaves a cancelled run with a verdict. */
  lemma CancelledRunMayShowAVerdict(env: Env, store: Store, summary: Summary, save: Input, cancel: Input)
    requires store.run.state == Evaluating && store.summary.None?
    requires DistinctRuleIds(summary.evaluation.results)
    ensures var (saved, _) := Advance(env, store, EvaluateSave(summary), save);
            var (cancelled, _) := Advance(env, saved, CancelWrite(saved.run), cancel);
            && cancelled.run.state == Cancelled
            && cancelled.run.verdict == Some(summary.evaluation.verdict)
  {
  }
}
