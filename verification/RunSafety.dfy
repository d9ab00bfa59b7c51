/** Safety of the run protocol over every schedule: evidence, verdict, lifecycle, deadlines, retries. */
module RunSafety {
  import opened Wrappers
  import opened Sequences
  import opened Evidence
  import opened Evaluator
  import opened EvaluatorLaws
  import opened RunDomain
  import opened RunStore
  import opened RunProtocol
  import opened RunInvariant

  // ---------------------------------------------------------------- continuing a schedule

  lemma EvolvesTransitive(a: Store, b: Store, c: Store)
    requires Evolves(a, b) && Evolves(b, c)
    ensures Evolves(a, c)
  {
    assert c.history[..|a.history|] == c.history[..|b.history|][..|a.history|] == a.history;
    assert c.spans[..|a.spans|] == c.spans[..|b.spans|][..|a.spans|] == a.spans;
    if EverFinalizing(a) {
      var i :| 0 <= i < |a.history| && a.history[i].state == Finalizing;
      assert b.history[..|a.history|][i] == b.history[i];
    }
  }

  lemma {:induction false} ExecuteConcat(env: Env, world: World, first: seq<Action>, rest: seq<Action>)
    ensures Execute(env, world, first + rest) == Execute(env, Execute(env, world, first), rest)
    decreases |rest|
  {
    if rest == [] {
      assert first + rest == first;
    } else {
      var n := |rest| - 1;
      assert (first + rest)[..|first + rest| - 1] == first + rest[..n];
      ExecuteConcat(env, world, first, rest[..n]);
    }
  }

  /** Continuing any reachable world keeps the invariant and takes nothing back. */
  lemma {:induction false} ContinuationEvolves(env: Env, world: World, schedule: seq<Action>)
    requires WorldInvariant(env, world)
    ensures WorldInvariant(env, Execute(env, world, schedule))
    ensures Evolves(world.store, Execute(env, world, schedule).store)
    decreases |schedule|
  {
    if schedule != [] {
      var before := Execute(env, world, schedule[..|schedule| - 1]);
      ContinuationEvolves(env, world, schedule[..|schedule| - 1]);
      ApplyKeeps(env, before, schedule[|schedule| - 1]);
      EvolvesTransitive(world.store, before.store, Execute(env, world, schedule).store);
    }
  }

  // ---------------------------------------------------------------- evidence

  /**
   * At most one bundle is ever stored: once there, it is never replaced, and it is sealed from exactly
   * the spans assigned to the run, of which none is added or lost afterwards.
   */
  lemma EvidenceIsWrittenOnce(env: Env, start: World, first: seq<Action>, rest: seq<Action>)
    requires Initial(start)
    requires Execute(env, start, first).store.bundle.Some?
    ensures var early, late := Execute(env, start, first).store, Execute(env, start, first + rest).store;
            && late.bundle == early.bundle
            && Assigned(late.spans) == Assigned(early.spans)
            && late.bundle.value ==
                 Seal(env, late.run.pins, late.run.completionReason, late.run.terminalState, Assigned(late.spans),
                      late.bundle.value.finalizedAt)
  {
    ScheduleKeeps(env, start, first);
    ScheduleKeeps(env, start, first + rest);
    ExecuteConcat(env, start, first, rest);
    ContinuationEvolves(env, Execute(env, start, first), rest);
  }

  /** A run that is being, or was, evaluated has a bundle, and its evidence fields are that bundle's. */
  lemma EvaluatedRunsCarryTheirBundle(env: Env, start: World, schedule: seq<Action>)
    requires Initial(start)
    ensures var store := Execute(env, start, schedule).store;
            store.run.state == Evaluating || store.run.state == Completed ==>
              && store.bundle.Some?
              && store.run.evidenceSha256 == Some(store.bundle.value.evidenceSha256)
              && store.run.traceCount == |store.bundle.value.traceIds|
              && store.run.eventCount == |store.bundle.value.events|
              && store.run.traceQuality == Some(store.bundle.value.traceQuality)
  {
    ScheduleKeeps(env, start, schedule);
    CurrentInHistory(env, Execute(env, start, schedule).store);
  }

  /** However many finalizers race, the evidence one offers is never refused as different. */
  lemma EvidenceConflictIsUnreachable(env: Env, start: World, schedule: seq<Action>, pid: nat)
    requires Initial(start)
    requires pid in Execute(env, start, schedule).procs && Execute(env, start, schedule).procs[pid].FinalizeInsert?
    ensures var world := Execute(env, start, schedule);
            var proc := world.procs[pid];
            InsertBundle(world.store, Seal(env, proc.run.pins, proc.run.completionReason, proc.run.terminalState,
                                           proc.spans, Some(proc.now))).1
  {
    ScheduleKeeps(env, start, schedule);
    var world := Execute(env, start, schedule);
    InsertBundleKeeps(env, world.store, world.procs[pid].run, world.procs[pid].now);
  }

  /**
   * The time of finalization is the one thing racing finalizers may disagree on: both load the claimed row
   * before a bundle is stored; the second one's bundle is accepted for its equal digest, and the row then
   * shows the second time while the stored bundle keeps the first.
   */
  lemma RowMayShowAnotherTime(env: Env, store: Store, first: Input, second: Input)
    requires StoreInvariant(env, store) && store.run.state == Settling && !StillSettling(store.run, first.now)
    requires first.now != second.now
    ensures var (claimed, _) := Advance(env, store, FinalizeClaim(store.run), first);
            var (run, spans) := (claimed.run, Assigned(claimed.spans));
            var (sealed, _) := Advance(env, claimed, FinalizeInsert(run, first.now, spans), first);
            var (again, proc) := Advance(env, sealed, FinalizeInsert(run, second.now, spans), second);
            && proc.Some?
            && var (written, _) := Advance(env, again, proc.value, second);
               && written.run.state == Evaluating
               && written.run.finalizedAt == Some(second.now)
               && written.bundle.Some? && written.bundle.value.finalizedAt == Some(first.now)
  {
    if store.bundle.Some? {
      FinalizingIsFrozen(env, store);
    }
  }

  // ---------------------------------------------------------------- verdict

  /** The rules a run is scored with: never none, and none of the requested ones is missing. */
  lemma SelectionIsComplete(request: CreateRequest, pack: Pack, now: Time)
    requires CreateRun(request, pack, now).Ok?
    ensures var pins := CreateRun(request, pack, now).value.run.pins;
            && Selected(pins) != []
            && (forall id | id in request.ruleIds :: exists rule | rule in Selected(pins) :: rule.id == id)
            && (request.ruleIds == [] ==> Selected(pins) == pack.rules)
  {
    var pins := CreateRun(request, pack, now).value.run.pins;
    forall id | id in request.ruleIds ensures exists rule | rule in Selected(pins) :: rule.id == id {
      var rule :| rule in pack.rules && rule.id == id;
      assert rule in Selected(pins);
    }
    if request.ruleIds != [] {
      assert request.ruleIds[0] in request.ruleIds;
    }
  }

  /**
   * A completed run has the verdict of the pinned rules over the stored evidence, whoever computed it;
   * and a verdict is only ever shown once a summary with that verdict is stored.
   */
  lemma VerdictIsTheScore(env: Env, start: World, schedule: seq<Action>)
    requires Initial(start)
    ensures var store := Execute(env, start, schedule).store;
            && (store.run.state == Completed ==> store.run.verdict.Some?)
            && (store.run.verdict.Some? ==>
                  && store.summary.Some? && store.bundle.Some?
                  && store.run.verdict.value ==
                       EvaluatePack(Selected(start.store.run.pins), store.bundle.value, env.parse).verdict)
  {
    ScheduleKeeps(env, start, schedule);
    InitialKeeps(env, start);
    ContinuationEvolves(env, start, schedule);
    CurrentInHistory(env, Execute(env, start, schedule).store);
  }

  predicate ByTimeout(reason: Option<CompletionReason>) {
    reason == Some(IdleTimeout) || reason == Some(MaxDuration)
  }

  lemma TimeoutEvidenceIsInsufficient(
    env: Env, pins: Pins, reason: Option<CompletionReason>, terminalState: Option<string>, spans: seq<Span>, at: Option<Time>)
    requires ByTimeout(reason)
    ensures Seal(env, pins, reason, terminalState, spans, at).traceQuality == Insufficient
  {
    var defects := EffectiveDefects(reason, env.normalize(pins, spans).defects);
    assert FORCED_TIMEOUT in defects && FORCED_TIMEOUT.blocking;
  }

  /** A run that a timeout completed is inconclusive, whatever its spans: missing evidence never passes or fails it. */
  lemma TimedOutRunsAreInconclusive(env: Env, start: World, schedule: seq<Action>)
    requires Initial(start)
    requires forall rule | rule in Selected(start.store.run.pins) :: rule.onMissingEvidence == ReportNotObservable
    ensures var run := Execute(env, start, schedule).store.run;
            run.state == Completed && ByTimeout(run.completionReason) ==> run.verdict == Some(RunVerdict.Inconclusive)
  {
    var store := Execute(env, start, schedule).store;
    VerdictIsTheScore(env, start, schedule);
    if store.run.state == Completed && ByTimeout(store.run.completionReason) {
      EvidenceIsWrittenOnce(env, start, schedule, []);
      assert schedule + [] == schedule;
      TimeoutEvidenceIsInsufficient(env, store.run.pins, store.run.completionReason, store.run.terminalState,
                                    Assigned(store.spans), store.bundle.value.finalizedAt);
      SelectionIsNeverEmpty(start);
      InsufficientTraceVerdict(Selected(start.store.run.pins), store.bundle.value, env.parse);
    }
  }

  lemma SelectionIsNeverEmpty(start: World)
    requires Initial(start)
    ensures Selected(start.store.run.pins) != []
  {
    var request, pack, now :| CreateRun(request, pack, now) == Ok(start.store);
    SelectionIsComplete(request, pack, now);
  }

  // ---------------------------------------------------------------- lifecycle

  function StateChanges(history: seq<Run>): nat
    decreases |history|
  {
    if |history| <= 1 then 0
    else
      (if history[|history| - 1].state != history[|history| - 2].state then 1 else 0)
      + StateChanges(history[..|history| - 1])
  }

  lemma {:induction false} ChangesAreBounded(history: seq<Run>)
    requires |history| > 0 && HistoryOrdered(history)
    ensures StateChanges(history) <= Rank(history[|history| - 1].state) - Rank(history[0].state)
    decreases |history|
  {
    if |history| > 1 {
      var before := history[..|history| - 1];
      ChangesAreBounded(before);
      assert Follows(history[|history| - 2], history[|history| - 1]);
    }
  }

  /** Every value the row has had is the created one or follows it in permitted steps. */
  lemma HistoryIsOrdered(env: Env, start: World, schedule: seq<Action>)
    requires Initial(start)
    ensures var history := Execute(env, start, schedule).store.history;
            && HistoryOrdered(history) && |history| > 0
            && history[0] == start.store.run && history[0].state == Created
            && history[|history| - 1] == Execute(env, start, schedule).store.run
  {
    ScheduleKeeps(env, start, schedule);
    FirstRowStays(env, start, schedule);
  }

  lemma FirstRowStays(env: Env, start: World, schedule: seq<Action>)
    requires Initial(start)
    ensures var history := Execute(env, start, schedule).store.history;
            |history| > 0 && history[0] == start.store.run && history[0].state == Created
  {
    InitialKeeps(env, start);
    ContinuationEvolves(env, start, schedule);
    var history := Execute(env, start, schedule).store.history;
    assert |start.store.history| == 1;
    assert history[0] == history[..1][0] == start.store.history[0];
  }

  lemma TerminalStatesAbsorb(history: seq<Run>, i: nat, j: nat)
    requires HistoryOrdered(history) && i <= j < |history| && IsTerminal(history[i].state)
    ensures history[j].state == history[i].state
  {
    assert Follows(history[i], history[j]);
  }

  lemma StatesDoNotReturn(history: seq<Run>, i: nat, k: nat, j: nat)
    requires HistoryOrdered(history) && i <= k <= j < |history| && history[i].state == history[j].state
    ensures history[k].state == history[i].state
  {
    assert Follows(history[i], history[k]) && Follows(history[k], history[j]);
  }

  /**
   * The stored life of a run: it starts as created, every change is a permitted transition, at most five
   * changes happen, terminal states absorb, and a state that was left is never seen again.
   */
  lemma LifecycleIsMonotone(env: Env, start: World, schedule: seq<Action>)
    requires Initial(start)
    ensures var history := Execute(env, start, schedule).store.history;
            && |history| > 0 && history[0].state == Created
            && history[|history| - 1] == Execute(env, start, schedule).store.run
            && StateChanges(history) <= 5
            && (forall i | 0 <= i < |history| - 1 ::
                  || history[i].state == history[i + 1].state
                  || AllowedTransition(history[i].state, history[i + 1].state))
            && (forall i, j | 0 <= i <= j < |history| && IsTerminal(history[i].state) ::
                  history[j].state == history[i].state)
            && (forall i, k, j | 0 <= i <= k <= j < |history| && history[i].state == history[j].state ::
                  history[k].state == history[i].state)
  {
    HistoryIsOrdered(env, start, schedule);
    var history := Execute(env, start, schedule).store.history;
    ChangesAreBounded(history);
    forall i, j | 0 <= i <= j < |history| && IsTerminal(history[i].state) ensures history[j].state == history[i].state {
      TerminalStatesAbsorb(history, i, j);
    }
    forall i, k, j | 0 <= i <= k <= j < |history| && history[i].state == history[j].state
      ensures history[k].state == history[i].state
    {
      StatesDoNotReturn(history, i, k, j);
    }
  }

  /**
   * The completion reason and the terminal state are written once, together: absent before the run
   * settles, present from then until it completes, and never changed.
   */
  lemma CompletionIsWrittenOnce(env: Env, start: World, schedule: seq<Action>)
    requires Initial(start)
    ensures var history := Execute(env, start, schedule).store.history;
            && (forall run | run in history ::
                  && (run.state == Created || run.state == Collecting ==> run.completionReason.None?)
                  && (2 <= Rank(run.state) <= 4 || run.state == Completed ==> run.completionReason.Some?)
                  && (run.completionReason.None? ==> run.terminalState.None?))
            && (forall i, j | 0 <= i <= j < |history| && history[i].completionReason.Some? ::
                  && history[j].completionReason == history[i].completionReason
                  && history[j].terminalState == history[i].terminalState)
  {
    ScheduleKeeps(env, start, schedule);
    var store := Execute(env, start, schedule).store;
    forall run | run in store.history ensures WellFormedRun(run) {
      assert SoundRun(store, run);
    }
    forall i, j | 0 <= i <= j < |store.history| && store.history[i].completionReason.Some?
      ensures store.history[j].completionReason == store.history[i].completionReason
      ensures store.history[j].terminalState == store.history[i].terminalState
    {
      assert Follows(store.history[i], store.history[j]);
    }
  }

  // ---------------------------------------------------------------- deadlines

  /** No stored settle time is ever later than the hard deadline, which itself never moves. */
  lemma SettleTimeIsBounded(env: Env, start: World, schedule: seq<Action>)
    requires Initial(start)
    ensures forall run | run in Execute(env, start, schedule).store.history ::
              && run.hardDeadlineAt == start.store.run.hardDeadlineAt
              && (run.settleUntil.Some? ==> run.settleUntil.value <= run.hardDeadlineAt)
  {
    ScheduleKeeps(env, start, schedule);
    InitialKeeps(env, start);
    ContinuationEvolves(env, start, schedule);
    var store := Execute(env, start, schedule).store;
    assert store.history[0] == store.history[..1][0] == start.store.run;
    forall run | run in store.history
      ensures run.hardDeadlineAt == start.store.run.hardDeadlineAt
      ensures run.settleUntil.Some? ==> run.settleUntil.value <= run.hardDeadlineAt
    {
      var i :| 0 <= i < |store.history| && store.history[i] == run;
      assert Follows(store.history[0], store.history[i]);
      assert SoundRun(store, run);
    }
  }

  /**
   * Once the hard deadline has passed no stream of telemetry can keep a run open: a finalizer whose
   * clock has reached it is not told that the run is still settling.
   */
  lemma FinalizationIsNotPostponedForever(env: Env, start: World, schedule: seq<Action>, pid: nat, now: Time)
    requires Initial(start)
    requires pid in Execute(env, start, schedule).procs && Execute(env, start, schedule).procs[pid].FinalizeClaim?
    requires now >= start.store.run.hardDeadlineAt
    ensures !StillSettling(Execute(env, start, schedule).procs[pid].run, now)
  {
    LoadedByClaim(env, start, schedule, pid);
    SettleTimeIsBounded(env, start, schedule);
  }

  lemma LoadedByClaim(env: Env, start: World, schedule: seq<Action>, pid: nat)
    requires Initial(start)
    requires pid in Execute(env, start, schedule).procs && Execute(env, start, schedule).procs[pid].FinalizeClaim?
    ensures Execute(env, start, schedule).procs[pid].run in Execute(env, start, schedule).store.history
  {
    ScheduleKeeps(env, start, schedule);
  }

  /** A run may be open for a second at least and a day at most, whatever duration was asked for. */
  lemma DeadlineIsWithinADay(env: Env, start: World, schedule: seq<Action>)
    requires Initial(start)
    ensures forall run | run in Execute(env, start, schedule).store.history ::
              && run.pins == start.store.run.pins
              && run.pins.createdAt + 1 <= run.hardDeadlineAt <= run.pins.createdAt + 86_400
  {
    ScheduleKeeps(env, start, schedule);
    InitialKeeps(env, start);
    ContinuationEvolves(env, start, schedule);
    SettleTimeIsBounded(env, start, schedule);
    var store := Execute(env, start, schedule).store;
    CurrentInHistory(env, store);
    var request, pack, now :| CreateRun(request, pack, now) == Ok(start.store);
  }

  /** A completion request leaves a run settling for five minutes at most, and never beyond its deadline. */
  lemma CompletionSettlesSoon(run: Run, request: CompletionRequest, now: Time)
    requires Completion(run, request, now).Ok?
    ensures var next := Completion(run, request, now).value;
            next != run ==>
              && next.state == Settling && next.settleUntil.Some?
              && next.settleUntil.value <= now + 300 && next.settleUntil.value <= run.hardDeadlineAt
              && (now + request.settleSeconds <= next.settleUntil.value
                  || next.settleUntil.value == now + 300 || next.settleUntil.value == run.hardDeadlineAt)
  {
  }

  // ---------------------------------------------------------------- telemetry reconciliation

  /**
   * Reconciliation gives up only after the row changed in each of eight disjoint windows between one
   * of its reads and the swap that followed; and no lifecycle error can stop it earlier.
   */
  lemma GivingUpNeedsEightChanges(env: Env, start: World, schedule: seq<Action>, pid: nat)
    requires Initial(start)
    requires pid in Execute(env, start, schedule).procs
    ensures var world := Execute(env, start, schedule);
            match world.procs[pid]
            case ReconcileGaveUp(windows) =>
              && |windows| == 8
              && DisjointWindows(windows, |world.store.history|)
              && |world.store.history| >= 8 + windows[0].readAt
            case ReconcileWrite(batch, settleSeconds, _, _, run) => Reconciled(run, batch, settleSeconds).Ok?
            case _ => true
  {
    ScheduleKeeps(env, start, schedule);
    var world := Execute(env, start, schedule);
    match world.procs[pid]
    case ReconcileGaveUp(windows) =>
      WindowsAddUp(windows, |world.store.history|);
    case ReconcileWrite(batch, settleSeconds, _, readAt, run) =>
      assert run in world.store.history;
      ReconciledIsSound(world.store, run, batch, settleSeconds);
    case _ =>
  }

  lemma {:induction false} WindowsAddUp(windows: seq<Window>, end: nat)
    requires windows != [] && DisjointWindows(windows, end)
    ensures end >= |windows| + windows[0].readAt
  {
    if |windows| > 1 {
      WindowsAddUp(windows[1..], end);
    }
  }

  /** The lifecycle point a reconciled batch leaves behind. */
  predicate Absorbed(run: Run, batch: Batch) {
    Rank(run.state) >= (if batch.terminal then 2 else 1)
  }

  lemma ReconciliationAbsorbs(env: Env, world: World, pid: nat, input: Input)
    requires WorldInvariant(env, world)
    requires pid in world.procs && world.procs[pid].ReconcileWrite?
    requires pid !in Apply(env, world, Step(pid, input)).procs
    ensures Absorbed(Apply(env, world, Step(pid, input)).store.run, world.procs[pid].batch)
  {
    var proc := world.procs[pid];
    assert proc.run in world.store.history;
    CurrentInHistory(env, world.store);
    assert SoundRun(world.store, proc.run);
    ReconciledIsSound(world.store, proc.run, proc.batch, proc.settleSeconds);
    ReconciledIsAbsorbed(proc.run, proc.batch, proc.settleSeconds);
    SwapKeeps(env, world.store, proc.run, Reconciled(proc.run, proc.batch, proc.settleSeconds).value);
  }

  lemma ReconciledIsAbsorbed(run: Run, batch: Batch, settleSeconds: nat)
    requires WellFormedRun(run) && Reconciled(run, batch, settleSeconds).Ok?
    ensures Absorbed(Reconciled(run, batch, settleSeconds).value, batch)
  {
  }

  /** A batch that brings nothing new changes the row exactly when the run is not yet where the batch calls for. */
  lemma NothingNewChangesNothingIff(run: Run, batch: Batch, settleSeconds: nat)
    requires WellFormedRun(run) && !batch.insertedAny
    ensures Reconciled(run, batch, settleSeconds) == Ok(run) <==> Absorbed(run, batch)
  {
  }

  /**
   * Once a batch has been reconciled, then whatever else happens, no span stored by then is stored again,
   * and a batch of duplicates finds nothing to write, unless it is terminal and the run is still collecting.
   */
  lemma RedeliveryChangesNothing(
    env: Env, world: World, pid: nat, input: Input, rest: seq<Action>, again: Batch, settleSeconds: nat)
    requires WorldInvariant(env, world)
    requires pid in world.procs && world.procs[pid].ReconcileWrite?
    requires pid !in Apply(env, world, Step(pid, input)).procs
    requires !again.insertedAny
    ensures var store := Execute(env, Apply(env, world, Step(pid, input)), rest).store;
            && (Reconciled(store.run, again, settleSeconds) == Ok(store.run) <==>
                  (again.terminal ==> store.run.state != Collecting))
            && (world.procs[pid].batch.terminal ==> store.run.state != Collecting)
            && forall ingested, receivedAt, maxSpans | ingested in world.store.spans ::
                 InsertSpan(store, ingested.span, receivedAt, maxSpans) == (store, Duplicate)
  {
    var reconciled := Apply(env, world, Step(pid, input));
    ReconciliationAbsorbs(env, world, pid, input);
    ApplyKeeps(env, world, Step(pid, input));
    ContinuationEvolves(env, reconciled, rest);
    var store := Execute(env, reconciled, rest).store;
    EvolvesTransitive(world.store, reconciled.store, store);
    CurrentInHistory(env, reconciled.store);
    HistoryKept(reconciled.store, store, reconciled.store.run);
    CurrentInHistory(env, store);
    assert SoundRun(store, store.run);
    NothingNewChangesNothingIff(store.run, again, settleSeconds);
    forall ingested | ingested in world.store.spans ensures ingested in store.spans {
      assert ingested in store.spans[..|world.store.spans|];
    }
  }
}
