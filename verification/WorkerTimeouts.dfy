/** What timeout jobs do to a run, and that a run they close is never judged. */
module WorkerTimeouts {
  import opened Wrappers
  import opened Evidence
  import EvaluatorLaws
  import opened RunDomain
  import opened RunStore
  import opened RunProtocol
  import opened RunInvariant
  import opened RunSafety
  import opened UseCases
  import opened JobQueue
  import opened Worker
  import opened WorkerSafety
  import opened PolicyReviewLaws
  import opened EndToEnd

  /** The row of a run that a timeout closes at `now`. */
  predicate ClosedByTimeout(before: Run, after: Run, reason: CompletionReason, now: Time) {
    after == before.(
      state := Settling, completionReason := Some(reason), terminalState := Some("timed_out"),
      settleUntil := Some(if now <= before.hardDeadlineAt then now else before.hardDeadlineAt), updatedAt := now)
  }

  /** The queue has gained a finalization that is due at once, and nothing else. */
  predicate FinalizationScheduled(before: seq<Job>, after: seq<Job>, availableAt: Time) {
    after == before + [Job(FinalizeJob, Pending, 0, availableAt)]
  }

  lemma NoFinalizationYet(env: Env, service: Service)
    requires ServiceInvariant(env, service) && Unsettled(service.store.run)
    ensures FindLive(service.queue, FinalizeJob).None?
  {
  }

  /**
   * At the hard deadline a run that is still open is closed as out of time: the reason is the maximal
   * duration, it settles no longer than until now, and its finalization is scheduled for then. A run that is
   * past that point is left alone.
   */
  lemma DeadlineJobMeaning(env: Env, settings: Settings, service: Service, id: nat, attempt: nat, input: Input)
    requires ServiceInvariant(env, service)
    ensures var (after, outcome) := Dispatch(env, settings, service, TimeoutJob, id, attempt, input);
            var (run, run') := (service.store.run, after.store.run);
            && outcome == Worker.Outcome.Finished
            && (run.state == Created || run.state == Collecting ==>
                  && ClosedByTimeout(run, run', MaxDuration, input.now)
                  && run'.settleUntil.Some?
                  && FinalizationScheduled(service.queue, after.queue, run'.settleUntil.value))
            && (run.state != Created && run.state != Collecting ==> after == service)
  {
    CurrentInHistory(env, service.store);
    assert SoundRun(service.store, service.store.run);
    if Unsettled(service.store.run) {
      NoFinalizationYet(env, service);
    }
  }

  /** When the run was last heard of; until a first span came, when it was created. */
  function LastHeardOf(run: Run): Time {
    match run.lastSeenAt
    case Some(time) => time
    case None => run.pins.createdAt
  }

  /** The idle time that applies: the configured one, but at least a second and at most the longest duration. */
  predicate IsIdleTime(settings: Settings, seconds: nat) {
    && 1 <= seconds
    && (1 <= settings.idleSeconds <= settings.maxRunSeconds ==> seconds == settings.idleSeconds)
    && (settings.idleSeconds == 0 ==> seconds == 1)
    && (settings.idleSeconds > settings.maxRunSeconds >= 1 ==> seconds == settings.maxRunSeconds)
  }

  /**
   * An idle job closes an open run if and only if nothing was heard of it for the idle time, and then for that
   * reason; otherwise the run stays as it is, and the job is put back to when that time will be over.
   */
  lemma IdleJobMeaning(env: Env, settings: Settings, service: Service, id: nat, attempt: nat, input: Input)
    returns (seconds: nat)
    requires ServiceInvariant(env, service)
    ensures IsIdleTime(settings, seconds)
    ensures var (after, outcome) := Dispatch(env, settings, service, IdleJob, id, attempt, input);
            var (run, run') := (service.store.run, after.store.run);
            var over := LastHeardOf(run) + seconds;
            if run.state != Created && run.state != Collecting then
              after == service && outcome == Worker.Outcome.Finished
            else if over <= input.now then
              && outcome == Worker.Outcome.Finished
              && ClosedByTimeout(run, run', IdleTimeout, input.now)
              && run'.settleUntil.Some?
              && FinalizationScheduled(service.queue, after.queue, run'.settleUntil.value)
            else
              && outcome == Worker.Outcome.Rescheduled
              && after.store == service.store
              && (Holds(service.queue, id, attempt) ==>
                    after.queue == service.queue[id := Job(
                      service.queue[id].kind, Pending, if attempt == 0 then 0 else attempt - 1, over)])
              && (!Holds(service.queue, id, attempt) ==> after.queue == service.queue)
  {
    seconds := IdleSeconds(settings);
    CurrentInHistory(env, service.store);
    assert SoundRun(service.store, service.store.run);
    if Unsettled(service.store.run) {
      NoFinalizationYet(env, service);
    }
  }

  // ---------------------------------------------------------------- and then

  /** Every move leads to a later value of the row. */
  lemma MakeFollows(env: Env, settings: Settings, system: System, move: Move)
    requires SystemInvariant(env, system)
    ensures Follows(system.service.store.run, Make(env, settings, system, move).service.store.run)
  {
    var System(service, leases) := system;
    match move
    case Claims(_, _, _) =>
    case Dispatches(worker, input) =>
      if worker in leases && leases[worker].outcome.None? {
        DispatchMoves(env, settings, service, leases[worker].kind, leases[worker].id, leases[worker].attempt, input);
      }
    case Records(worker, now) =>
      if worker in leases && leases[worker].outcome.Some? {
        RecordMoves(env, settings, service, leases[worker].id, leases[worker].attempt, leases[worker].outcome.value, now);
      }
    case Vanishes(_) =>
    case SpanArrives(span, receivedAt, maxSpans) => SpanMoves(env, service, span, receivedAt, maxSpans);
    case BatchReconciled(batch) => ReconcileMoves(env, settings, service, batch);
    case CompletionRequested(request, now) => CompleteMoves(env, service, request, now);
    case CancelRequested(now) => CancelMoves(env, service, now);
  }

  lemma {:induction false} MakeAllFollows(env: Env, settings: Settings, system: System, moves: seq<Move>)
    requires SystemInvariant(env, system)
    ensures Follows(system.service.store.run, MakeAll(env, settings, system, moves).service.store.run)
    decreases |moves|
  {
    if moves != [] {
      var n := |moves| - 1;
      MakeAllFollows(env, settings, system, moves[..n]);
      MakeAllKeeps(env, settings, system, moves[..n]);
      MakeFollows(env, settings, MakeAll(env, settings, system, moves[..n]), moves[n]);
      FollowsTransitive(system.service.store.run, MakeAll(env, settings, system, moves[..n]).service.store.run,
                        MakeAll(env, settings, system, moves).service.store.run);
    }
  }

  /** A run in order that a timeout completed under a sound pack shows no other verdict than inconclusive. */
  lemma TimedOutIsInconclusive(env: Env, store: Store)
    requires StoreInvariant(env, store) && SoundRules(store.run.pins.policyContent.rules)
    requires Selected(store.run.pins) != []
    requires store.run.state == Completed && ByTimeout(store.run.completionReason)
    ensures store.run.verdict == Some(RunVerdict.Inconclusive)
  {
    CurrentInHistory(env, store);
    assert SoundRun(store, store.run);
    TimeoutEvidenceIsInsufficient(env, store.run.pins, store.run.completionReason, store.run.terminalState,
                                  Assigned(store.spans), store.bundle.value.finalizedAt);
    SelectionIsSound(store.run.pins);
    EvaluatorLaws.InsufficientTraceVerdict(Selected(store.run.pins), store.bundle.value, env.parse);
  }

  /** In this system the worker's next dispatch is of a timeout job. */
  predicate AboutToTimeOut(system: System, worker: nat) {
    && worker in system.leases && system.leases[worker].outcome.None?
    && (system.leases[worker].kind == TimeoutJob || system.leases[worker].kind == IdleJob)
    && Unsettled(system.service.store.run)
  }

  /** A dispatched timeout job that closes the run leaves the reason of its kind. */
  lemma TimeoutLeavesItsReason(env: Env, settings: Settings, system: System, worker: nat, input: Input)
    requires SystemInvariant(env, system) && AboutToTimeOut(system, worker)
    requires !Unsettled(Make(env, settings, system, Dispatches(worker, input)).service.store.run)
    ensures Make(env, settings, system, Dispatches(worker, input)).service.store.run.completionReason
         == Some(if system.leases[worker].kind == TimeoutJob then MaxDuration else IdleTimeout)
  {
    var lease := system.leases[worker];
    if lease.kind == TimeoutJob {
      DeadlineJobMeaning(env, settings, system.service, lease.id, lease.attempt, input);
    } else {
      var seconds := IdleJobMeaning(env, settings, system.service, lease.id, lease.attempt, input);
    }
  }

  /**
   * A run that a timeout job closed is never judged: with any number of workers, whatever telemetry, requests
   * and faults come before and after, if it is ever completed its verdict under a reviewed pack is
   * inconclusive.
   */
  lemma ClosedByTimeoutIsNeverJudged(
    env: Env, settings: Settings, request: CreateRequest, pack: Pack, now: Time, before: seq<Move>, worker: nat,
    input: Input, rest: seq<Move>, system: System, closed: System)
    requires CreateRun(request, pack, now).Ok? && SoundRules(pack.rules)
    requires system == MakeAll(env, settings, System(Opened(CreateRun(request, pack, now).value), map[]), before)
    requires closed == Make(env, settings, system, Dispatches(worker, input))
    requires AboutToTimeOut(system, worker) && !Unsettled(closed.service.store.run)
    ensures var run := MakeAll(env, settings, closed, rest).service.store.run;
            && ByTimeout(run.completionReason)
            && (run.state == Completed ==> run.verdict == Some(RunVerdict.Inconclusive))
  {
    var first := System(Opened(CreateRun(request, pack, now).value), map[]);
    OpenedKeeps(env, request, pack, now);
    MakeAllKeeps(env, settings, first, before);
    MakeAllFollows(env, settings, first, before);
    TimeoutLeavesItsReason(env, settings, system, worker, input);
    MakeKeeps(env, settings, system, Dispatches(worker, input));
    MakeFollows(env, settings, system, Dispatches(worker, input));
    MakeAllKeeps(env, settings, closed, rest);
    MakeAllFollows(env, settings, closed, rest);
    var store := MakeAll(env, settings, closed, rest).service.store;
    PinnedToThePack(first, store.run, request, pack, now);
    if store.run.state == Completed {
      TimedOutIsInconclusive(env, store);
    }
  }

  lemma PinnedToThePack(first: System, run: Run, request: CreateRequest, pack: Pack, now: Time)
    requires CreateRun(request, pack, now).Ok?
    requires first == System(Opened(CreateRun(request, pack, now).value), map[])
    requires run.pins == first.service.store.run.pins
    ensures run.pins.policyContent.rules == pack.rules && Selected(run.pins) != []
  {
    SelectionIsComplete(request, pack, now);
  }
}
