/** Who completed a run, and what the row says about it: the reason and terminal state are those that were asked for. */
module RunCompletion {
  import opened Wrappers
  import opened Evidence
  import opened RunDomain
  import opened RunStore
  import opened RunProtocol
  import opened RunInvariant
  import opened RunSafety
  import opened RunStamps

  predicate Unfinished(run: Run) {
    run.state == Created || run.state == Collecting
  }

  /** A step that takes the row from before settling to Settling. */
  predicate Settles(before: Run, after: Run) {
    Unfinished(before) && after.state == Settling
  }

  // ---------------------------------------------------------------- one step

  /**
   * Telemetry settles a run only on a terminal span, always as a terminal event, with the state that span
   * reported and for as long as the gateway lets a run settle, cut off at the hard deadline.
   */
  lemma TelemetrySettlesAsTerminalEvent(env: Env, store: Store, proc: Proc, input: Input)
    requires StoreInvariant(env, store) && ProcInvariant(env, store, proc) && proc.ReconcileWrite?
    requires Settles(store.run, Advance(env, store, proc, input).0.run)
    ensures var run := Advance(env, store, proc, input).0.run;
            && proc.batch.terminal
            && run.completionReason == Some(TerminalEvent)
            && run.terminalState == proc.batch.terminalState
            && run.updatedAt == proc.batch.latestReceivedAt
            && run.settleUntil.Some?
            && run.settleUntil.value <= run.hardDeadlineAt
            && run.settleUntil.value <= proc.batch.latestReceivedAt + proc.settleSeconds
            && (run.settleUntil.value == run.hardDeadlineAt
                || run.settleUntil.value == proc.batch.latestReceivedAt + proc.settleSeconds)
  {
    StepIsItsProposal(env, store, proc, input);
    LoadedRowIsUnfinished(env, store, proc, input);
  }

  lemma LoadedRowIsUnfinished(env: Env, store: Store, proc: Proc, input: Input)
    requires StoreInvariant(env, store) && ProcInvariant(env, store, proc)
    requires proc.ReconcileWrite? || proc.CompleteWrite?
    requires Settles(store.run, Advance(env, store, proc, input).0.run)
    ensures proc.run.state == store.run.state && WellFormedRun(proc.run)
    ensures proc.run.hardDeadlineAt == store.run.hardDeadlineAt && proc.run.pins == store.run.pins
  {
    StepIsItsProposal(env, store, proc, input);
    assert proc.run in store.history;
    assert SoundRun(store, proc.run);
    CurrentInHistory(env, store);
  }

  /** A completion request settles a run with its own reason and terminal state, for at most five minutes. */
  lemma RequestSettlesAsAsked(env: Env, store: Store, proc: Proc, input: Input)
    requires StoreInvariant(env, store) && ProcInvariant(env, store, proc) && proc.CompleteWrite?
    requires Settles(store.run, Advance(env, store, proc, input).0.run)
    ensures var run := Advance(env, store, proc, input).0.run;
            && run.completionReason == Some(proc.request.reason)
            && run.terminalState == proc.request.terminalState
            && run.updatedAt == input.now
            && run.settleUntil.Some?
            && run.settleUntil.value <= run.hardDeadlineAt
            && run.settleUntil.value <= input.now + proc.request.settleSeconds
            && run.settleUntil.value <= input.now + 300
            && (run.settleUntil.value == run.hardDeadlineAt
                || run.settleUntil.value == input.now + proc.request.settleSeconds
                || run.settleUntil.value == input.now + 300)
  {
    StepIsItsProposal(env, store, proc, input);
    LoadedRowIsUnfinished(env, store, proc, input);
  }

  /** What a process completes a run with, if it is one that does. */
  function Asks(proc: Proc): Option<(CompletionReason, Option<string>)> {
    match proc
    case CompleteWrite(request, _) => Some((request.reason, request.terminalState))
    case ReconcileWrite(batch, _, _, _, _) =>
      if batch.terminal then Some((TerminalEvent, batch.terminalState)) else None
    case _ => None
  }

  predicate IsCompletedWith(run: Run, asked: Option<(CompletionReason, Option<string>)>) {
    match asked
    case None => false
    case Some((reason, terminalState)) => run.completionReason == Some(reason) && run.terminalState == terminalState
  }

  /** What a step proposes keeps the loaded reason, unless a completion or telemetry settles the run. */
  lemma ProposedReason(proc: Proc, input: Input)
    requires Proposal(proc, input).Some? && WellFormedRun(Proposal(proc, input).value.0)
    ensures var (loaded, next) := Proposal(proc, input).value;
            && (next.completionReason == loaded.completionReason || Settles(loaded, next))
            && (Settles(loaded, next) ==> proc.ReconcileWrite? || proc.CompleteWrite?)
  {
  }

  /** A swap of the loaded row either settles the run or leaves it without a reason if it had none. */
  lemma SwappedReason(env: Env, store: Store, loaded: Run, next: Run)
    requires StoreInvariant(env, store) && loaded in store.history
    requires next.completionReason == loaded.completionReason || Settles(loaded, next)
    ensures var run := Swap(store, loaded, next).0.run;
            && (store.run.completionReason.None? && !Settles(store.run, run) ==> run.completionReason.None?)
            && (Settles(store.run, run) ==> Settles(loaded, next))
  {
    CurrentInHistory(env, store);
    assert Follows(loaded, store.run);
  }

  /** No other process settles a run, and whoever does leaves what it asked for. */
  lemma SettlingStep(env: Env, store: Store, proc: Proc, input: Input)
    requires StoreInvariant(env, store) && ProcInvariant(env, store, proc)
    ensures var run := Advance(env, store, proc, input).0.run;
            && (Settles(store.run, run) ==> IsCompletedWith(run, Asks(proc)))
            && (!Settles(store.run, run) ==> store.run.completionReason.None? ==> run.completionReason.None?)
  {
    ReasonOnlyBySettling(env, store, proc, input);
    if Settles(store.run, Advance(env, store, proc, input).0.run) {
      if proc.ReconcileWrite? {
        TelemetrySettlesAsTerminalEvent(env, store, proc, input);
      } else {
        RequestSettlesAsAsked(env, store, proc, input);
      }
    }
  }

  lemma ReasonOnlyBySettling(env: Env, store: Store, proc: Proc, input: Input)
    requires StoreInvariant(env, store) && ProcInvariant(env, store, proc)
    ensures var run := Advance(env, store, proc, input).0.run;
            && (Settles(store.run, run) ==> proc.ReconcileWrite? || proc.CompleteWrite?)
            && (!Settles(store.run, run) && store.run.completionReason.None? ==> run.completionReason.None?)
  {
    if proc.EvaluateSave? || proc.FinalizeInsert? {
      BesidesTheRow(env, store, proc, input);
    } else {
      StepIsItsProposal(env, store, proc, input);
      if Proposal(proc, input).Some? {
        LoadedIsSound(env, store, proc, input);
        ProposedReason(proc, input);
        SwappedReason(env, store, Proposal(proc, input).value.0, Proposal(proc, input).value.1);
      }
    }
  }

  lemma BesidesTheRow(env: Env, store: Store, proc: Proc, input: Input)
    requires proc.EvaluateSave? || proc.FinalizeInsert?
    ensures var run := Advance(env, store, proc, input).0.run;
            run.state == store.run.state && run.completionReason == store.run.completionReason
  {
  }

  // ---------------------------------------------------------------- whole schedules

  predicate SettledAt(env: Env, start: World, schedule: seq<Action>, k: nat) {
    && k < |schedule|
    && var world := RunStamps.At(env, start, schedule, k);
       Stepping(world, schedule[k]).Some? && Settles(world.store.run, Apply(env, world, schedule[k]).store.run)
  }

  /** What the process that takes step `k` completes a run with. */
  function AskedAt(env: Env, start: World, schedule: seq<Action>, k: nat): Option<(CompletionReason, Option<string>)>
    requires k < |schedule|
  {
    var world := RunStamps.At(env, start, schedule, k);
    if Stepping(world, schedule[k]).Some? then Asks(Stepping(world, schedule[k]).value) else None
  }

  ghost predicate SettledBy(env: Env, start: World, schedule: seq<Action>, n: nat) {
    exists k: nat :: k < n && SettledAt(env, start, schedule, k)
  }

  lemma ActionSettles(env: Env, world: World, action: Action)
    requires WorldInvariant(env, world)
    ensures var run := Apply(env, world, action).store.run;
            && (Settles(world.store.run, run) ==>
                  Stepping(world, action).Some? && IsCompletedWith(run, Asks(Stepping(world, action).value)))
            && (world.store.run.completionReason.None? && !Settles(world.store.run, run) ==> run.completionReason.None?)
  {
    if Stepping(world, action).Some? {
      SettlingStep(env, world.store, Stepping(world, action).value, action.input);
    }
  }

  /** A reason, once written, stays. */
  lemma ReasonStays(env: Env, world: World, rest: seq<Action>)
    requires WorldInvariant(env, world) && world.store.run.completionReason.Some?
    ensures var run := Execute(env, world, rest).store.run;
            && run.completionReason == world.store.run.completionReason
            && run.terminalState == world.store.run.terminalState
  {
    ContinuationEvolves(env, world, rest);
    CurrentInHistory(env, world.store);
    HistoryKept(world.store, Execute(env, world, rest).store, world.store.run);
    CurrentInHistory(env, Execute(env, world, rest).store);
  }

  lemma {:induction false} ReasonIffSettled(env: Env, start: World, schedule: seq<Action>, n: nat)
    requires Initial(start) && n <= |schedule|
    ensures RunStamps.At(env, start, schedule, n).store.run.completionReason.Some? <==> SettledBy(env, start, schedule, n)
  {
    if n == 0 {
      assert RunStamps.At(env, start, schedule, 0) == start;
    } else {
      ReasonIffSettled(env, start, schedule, n - 1);
      ReasonNext(env, start, schedule, n - 1);
      SettledByNext(env, start, schedule, n - 1);
    }
  }

  lemma SettledByNext(env: Env, start: World, schedule: seq<Action>, n: nat)
    ensures SettledBy(env, start, schedule, n + 1) <==>
              SettledBy(env, start, schedule, n) || SettledAt(env, start, schedule, n)
  {
  }

  lemma ReasonNext(env: Env, start: World, schedule: seq<Action>, k: nat)
    requires Initial(start) && k < |schedule|
    ensures RunStamps.At(env, start, schedule, k + 1).store.run.completionReason.Some? <==>
              RunStamps.At(env, start, schedule, k).store.run.completionReason.Some? || SettledAt(env, start, schedule, k)
  {
    var world := RunStamps.At(env, start, schedule, k);
    ScheduleKeeps(env, start, schedule[..k]);
    AtStep(env, start, schedule, k);
    ActionSettles(env, world, schedule[k]);
    if world.store.run.completionReason.Some? {
      ReasonStays(env, world, [schedule[k]]);
      assert [schedule[k]][..0] == [];
    }
  }

  lemma AskedThen(env: Env, start: World, schedule: seq<Action>, k: nat)
    requires Initial(start) && SettledAt(env, start, schedule, k)
    ensures IsCompletedWith(RunStamps.At(env, start, schedule, k + 1).store.run, AskedAt(env, start, schedule, k))
  {
    ScheduleKeeps(env, start, schedule[..k]);
    AtStep(env, start, schedule, k);
    ActionSettles(env, RunStamps.At(env, start, schedule, k), schedule[k]);
  }

  lemma CompletedToTheEnd(env: Env, start: World, schedule: seq<Action>, k: nat)
    requires Initial(start) && k <= |schedule|
    requires RunStamps.At(env, start, schedule, k).store.run.completionReason.Some?
    ensures var (earlier, final) := (RunStamps.At(env, start, schedule, k).store.run, Execute(env, start, schedule).store.run);
            final.completionReason == earlier.completionReason && final.terminalState == earlier.terminalState
  {
    ScheduleKeeps(env, start, schedule[..k]);
    ExecuteConcat(env, start, schedule[..k], schedule[k..]);
    assert schedule[..k] + schedule[k..] == schedule;
    ReasonStays(env, RunStamps.At(env, start, schedule, k), schedule[k..]);
  }

  /** Whoever settled the run, at whatever step, the row shows to the end what was asked for then. */
  lemma SettledAsAsked(env: Env, start: World, schedule: seq<Action>, k: nat)
    requires Initial(start) && SettledAt(env, start, schedule, k)
    ensures IsCompletedWith(Execute(env, start, schedule).store.run, AskedAt(env, start, schedule, k))
  {
    AskedThen(env, start, schedule, k);
    CompletedToTheEnd(env, start, schedule, k + 1);
  }

  /**
   * A run shows a completion if and only if some step settled it, and then exactly the reason and terminal
   * state that step's process asked for; in particular it shows a terminal event if and only if a terminal
   * batch (or a request that says so) settled it.
   */
  lemma CompletionIffAsked(
    env: Env, start: World, schedule: seq<Action>, reason: CompletionReason, terminalState: Option<string>)
    requires Initial(start)
    ensures var run := Execute(env, start, schedule).store.run;
            (run.completionReason == Some(reason) && run.terminalState == terminalState) <==>
              exists k: nat :: SettledAt(env, start, schedule, k)
                               && AskedAt(env, start, schedule, k) == Some((reason, terminalState))
  {
    ReasonIffSettled(env, start, schedule, |schedule|);
    assert schedule[..|schedule|] == schedule;
    if Execute(env, start, schedule).store.run.completionReason.Some? {
      var k: nat :| k < |schedule| && SettledAt(env, start, schedule, k);
      SettledAsAsked(env, start, schedule, k);
    }
    if k: nat :| SettledAt(env, start, schedule, k) && AskedAt(env, start, schedule, k) == Some((reason, terminalState)) {
      SettledAsAsked(env, start, schedule, k);
    }
  }

  /** Telemetry never leaves a run that counts as timed out. */
  lemma TelemetryNeverTimesOut(env: Env, start: World, schedule: seq<Action>, k: nat)
    requires Initial(start) && SettledAt(env, start, schedule, k)
    requires Stepping(RunStamps.At(env, start, schedule, k), schedule[k]).value.ReconcileWrite?
    ensures Execute(env, start, schedule).store.run.completionReason == Some(TerminalEvent)
    ensures !ByTimeout(Execute(env, start, schedule).store.run.completionReason)
  {
    SettledAsAsked(env, start, schedule, k);
  }
}
