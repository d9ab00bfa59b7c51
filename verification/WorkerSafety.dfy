/**
 * Many workers, telemetry and API requests over one run: which job is alive in which state, and what
 * a lease is worth. Use cases are atomic; between claiming, dispatching and recording anything may
 * happen, leases may expire, and a worker may vanish.
 */
module WorkerSafety {
  import opened Wrappers
  import opened Evidence
  import opened RunDomain
  import opened RunStore
  import opened RunProtocol
  import opened RunInvariant
  import opened UseCases
  import opened JobQueue
  import opened Worker

  /** A claim a worker acts under; the outcome is known once the job was dispatched. */
  datatype Lease = Lease(id: nat, kind: JobKind, attempt: nat, outcome: Option<Outcome>)

  datatype System = System(service: Service, leases: map<nat, Lease>)

  datatype Move =
    | SpanArrives(span: Span, receivedAt: Time, maxSpans: nat)
    | BatchReconciled(batch: Batch)
    | CompletionRequested(request: CompletionRequest, now: Time)
    | CancelRequested(now: Time)
    | Claims(worker: nat, id: nat, now: Time)
    | Dispatches(worker: nat, input: Input)
    | Records(worker: nat, now: Time)
    | Vanishes(worker: nat)

  /** A move from outside the workers. */
  predicate IsExternal(move: Move) {
    move.SpanArrives? || move.BatchReconciled? || move.CompletionRequested? || move.CancelRequested?
  }

  function External(settings: Settings, service: Service, move: Move): Service
    requires IsExternal(move)
  {
    match move
    case SpanArrives(span, receivedAt, maxSpans) =>
      service.(store := InsertSpan(service.store, span, receivedAt, maxSpans).0)
    case BatchReconciled(batch) => ReconcileWithJob(settings, service, batch)
    case CompletionRequested(request, now) => CompleteWithJob(service, request, now).0
    case CancelRequested(now) => service.(store := CancelRun(service.store, now).0)
  }

  /** One move; a move that is not enabled changes nothing. */
  function Make(env: Env, settings: Settings, system: System, move: Move): System {
    var System(service, leases) := system;
    match move
    case Claims(worker, id, now) =>
      if worker in leases || !EarliestDue(service.queue, id, now) then system
      else
        var queue := ClaimJob(service.queue, id, now, settings.leaseSeconds);
        System(service.(queue := queue), leases[worker := Lease(id, queue[id].kind, queue[id].attempts, None)])
    case Dispatches(worker, input) =>
      if worker !in leases || leases[worker].outcome.Some? then system
      else
        var lease := leases[worker];
        var (service', outcome) := Dispatch(env, settings, service, lease.kind, lease.id, lease.attempt, input);
        System(service',
               if outcome == Rescheduled then leases - {worker}
               else leases[worker := lease.(outcome := Some(outcome))])
    case Records(worker, now) =>
      if worker !in leases || leases[worker].outcome.None? then system
      else
        var lease := leases[worker];
        System(Record(settings, service, lease.id, lease.attempt, lease.outcome.value, now), leases - {worker})
    case Vanishes(worker) => System(service, leases - {worker})
    case _ => System(External(settings, service, move), leases)
  }

  function MakeAll(env: Env, settings: Settings, system: System, moves: seq<Move>): System
    decreases |moves|
  {
    if moves == [] then system
    else Make(env, settings, MakeAll(env, settings, system, moves[..|moves| - 1]), moves[|moves| - 1])
  }

  // ---------------------------------------------------------------- the invariant

  /** The job that will move a run out of each state. */
  function NeededKind(state: RunState): JobKind {
    match state
    case Created => TimeoutJob
    case Collecting => TimeoutJob
    case Settling => FinalizeJob
    case Finalizing => FinalizeJob
    case _ => EvaluateJob
  }

  /** The lifecycle point a job of this kind leaves behind when it finishes. */
  function DoneRank(kind: JobKind): nat {
    match kind
    case TimeoutJob => 2
    case IdleJob => 2
    case FinalizeJob => 4
    case EvaluateJob => 5
  }

  /** Every open run has a live job of the kind its state needs. */
  ghost predicate Served(run: Run, queue: seq<Job>) {
    && (!IsTerminal(run.state) ==> exists id :: LiveAt(queue, NeededKind(run.state), id))
    && (forall id: nat | LiveAt(queue, FinalizeJob, id) :: Rank(run.state) >= 2)
    && (forall id: nat | LiveAt(queue, EvaluateJob, id) :: Rank(run.state) >= 4)
    && (forall id: nat | LiveAt(queue, TimeoutJob, id) && Unsettled(run) :: queue[id].availableAt <= run.hardDeadlineAt)
  }

  ghost predicate LeaseFits(run: Run, queue: seq<Job>, lease: Lease) {
    && lease.id < |queue|
    && queue[lease.id].kind == lease.kind
    && 1 <= lease.attempt <= queue[lease.id].attempts
    && (lease.outcome == Some(Finished) ==> Rank(run.state) >= DoneRank(lease.kind))
    && (lease.outcome == Some(Refused) ==> lease.kind == FinalizeJob || lease.kind == EvaluateJob)
    && lease.outcome != Some(Rescheduled)
  }

  ghost predicate LeasesFit(run: Run, queue: seq<Job>, leases: map<nat, Lease>) {
    && (forall worker | worker in leases :: LeaseFits(run, queue, leases[worker]))
    && (forall one, other | one in leases && other in leases && one != other && leases[one].id == leases[other].id ::
          leases[one].attempt != leases[other].attempt)
  }

  ghost predicate ServiceInvariant(env: Env, service: Service) {
    && StoreInvariant(env, service.store)
    && service.store.run.state != Finalizing
    && OneLivePerKind(service.queue)
    && Served(service.store.run, service.queue)
  }

  ghost predicate SystemInvariant(env: Env, system: System) {
    && ServiceInvariant(env, system.service)
    && LeasesFit(system.service.store.run, system.service.queue, system.leases)
  }

  // ---------------------------------------------------------------- the queue under each operation

  /** `after` has the jobs of `before`, none of them revived or handed out, possibly some new ones. */
  ghost predicate KeepsJobs(before: seq<Job>, after: seq<Job>) {
    && |before| <= |after|
    && forall i | 0 <= i < |before| ::
         && after[i].kind == before[i].kind
         && after[i].attempts == before[i].attempts
         && (Live(after[i]) ==> Live(before[i]))
  }

  lemma EnqueueKeeps(queue: seq<Job>, kind: JobKind, at: Time)
    requires OneLivePerKind(queue)
    ensures var queue' := Enqueue(queue, kind, at);
            && KeepsJobs(queue, queue')
            && OneLivePerKind(queue')
            && (exists id :: LiveAt(queue', kind, id))
            && (forall other, id: nat | LiveAt(queue', other, id) ::
                  (LiveAt(queue, other, id) && (other != kind ==> queue'[id] == queue[id])) || other == kind)
            && (forall other, id: nat | LiveAt(queue, other, id) :: LiveAt(queue', other, id))
  {
    var queue' := Enqueue(queue, kind, at);
    match FindLive(queue, kind)
    case None =>
      assert LiveAt(queue', kind, |queue|);
      assert forall other, i: nat | i < |queue| :: LiveAt(queue', other, i) <==> LiveAt(queue, other, i);
    case Some(id) =>
      assert LiveAt(queue', kind, id);
      assert forall other, i: nat :: LiveAt(queue', other, i) <==> LiveAt(queue, other, i);
  }

  /** Adding or postponing the job that the new state needs keeps the run served. */
  lemma EnqueueServes(before: Run, after: Run, queue: seq<Job>, kind: JobKind, at: Time)
    requires OneLivePerKind(queue) && Served(before, queue)
    requires Follows(before, after)
    requires kind == NeededKind(after.state) || after.state == before.state || IsTerminal(after.state)
    requires kind == FinalizeJob ==> Rank(after.state) >= 2
    requires kind == EvaluateJob ==> Rank(after.state) >= 4
    requires kind != TimeoutJob
    ensures var queue' := Enqueue(queue, kind, at);
            OneLivePerKind(queue') && Served(after, queue') && KeepsJobs(queue, queue')
  {
    EnqueueKeeps(queue, kind, at);
    if !IsTerminal(after.state) && kind != NeededKind(after.state) {
      var id :| LiveAt(queue, NeededKind(before.state), id);
      assert LiveAt(Enqueue(queue, kind, at), NeededKind(before.state), id);
    }
  }

  lemma LeasesStillFit(before: Run, after: Run, queue: seq<Job>, queue': seq<Job>, leases: map<nat, Lease>)
    requires LeasesFit(before, queue, leases)
    requires KeepsJobs(queue, queue') && Rank(before.state) <= Rank(after.state)
    ensures LeasesFit(after, queue', leases)
  {
  }

  // ---------------------------------------------------------------- each use case

  /** The service moved on: no fact is lost and no lease is upset. */
  ghost predicate Moved(env: Env, service: Service, service': Service) {
    && ServiceInvariant(env, service')
    && Follows(service.store.run, service'.store.run)
    && KeepsJobs(service.queue, service'.queue)
  }

  lemma CompleteMoves(env: Env, service: Service, request: CompletionRequest, now: Time)
    requires ServiceInvariant(env, service)
    ensures var (service', ok) := CompleteWithJob(service, request, now);
            && Moved(env, service, service')
            && (ok ==> Rank(service'.store.run.state) >= 2)
            && (Unsettled(service.store.run) ==> ok && service'.store.run.state == Settling)
  {
    var store := service.store;
    var (store', ok) := CompleteRun(store, request, now);
    WritesAreUninterrupted(env, store, request, Input(now, None, 0));
    UseCaseKeeps(env, store, CompleteRead(request), Input(now, None, 0), store');
    CurrentInHistory(env, store);
    assert SoundRun(store, store.run);
    if ok {
      EnqueueServes(store.run, store'.run, service.queue, FinalizeJob, SettleTime(store'.run, now));
    }
  }

  lemma ReconciledStore(env: Env, store: Store, batch: Batch, settleSeconds: nat)
    requires StoreInvariant(env, store) && store.run.state != Finalizing
    ensures var (store', ok) := ReconcileRun(store, batch, settleSeconds);
            && ok
            && StoreInvariant(env, store') && Follows(store.run, store'.run)
            && (store'.run.state == store.run.state
                || (Unsettled(store.run) && store'.run.state in {Collecting, Settling}))
  {
    var input := Input(0, None, 0);
    ReconcileIsUninterrupted(env, store, batch, settleSeconds, input);
    CurrentInHistory(env, store);
    assert SoundRun(store, store.run);
    ReconciledIsSound(store, store.run, batch, settleSeconds);
    UseCaseKeeps(env, store, ReconcileRead(batch, settleSeconds, []), input,
                 ReconcileRun(store, batch, settleSeconds).0);
  }

  lemma ReconcileMoves(env: Env, settings: Settings, service: Service, batch: Batch)
    requires ServiceInvariant(env, service)
    ensures Moved(env, service, ReconcileWithJob(settings, service, batch))
  {
    var run, run' := service.store.run, ReconcileRun(service.store, batch, settings.settleSeconds).0.run;
    ReconciledStore(env, service.store, batch, settings.settleSeconds);
    if run'.state == Settling {
      EnqueueServes(run, run', service.queue, FinalizeJob, SettleTime(run', batch.latestReceivedAt));
    } else {
      assert NeededKind(run'.state) == NeededKind(run.state);
      if run'.state == Collecting {
        EnqueueServes(run', run', service.queue, IdleJob, batch.latestReceivedAt + IdleSeconds(settings));
      }
    }
  }

  lemma CancelMoves(env: Env, service: Service, now: Time)
    requires ServiceInvariant(env, service)
    ensures Moved(env, service, service.(store := CancelRun(service.store, now).0))
  {
    var store, input := service.store, Input(now, None, 0);
    WritesAreUninterrupted(env, store, CompletionRequest(IdleTimeout, None, 0), input);
    UseCaseKeeps(env, store, CancelRead, input, CancelRun(store, now).0);
  }

  lemma FailMoves(env: Env, service: Service, now: Time)
    requires ServiceInvariant(env, service)
    ensures Moved(env, service, service.(store := MarkRunFailed(service.store, now)))
    ensures IsTerminal(MarkRunFailed(service.store, now).run.state)
  {
    var store, input := service.store, Input(now, None, 0);
    WritesAreUninterrupted(env, store, CompletionRequest(IdleTimeout, None, 0), input);
    UseCaseKeeps(env, store, MarkFailedRead, input, MarkRunFailed(store, now));
  }

  lemma SpanMoves(env: Env, service: Service, span: Span, receivedAt: Time, maxSpans: nat)
    requires ServiceInvariant(env, service)
    ensures Moved(env, service, service.(store := InsertSpan(service.store, span, receivedAt, maxSpans).0))
  {
    InsertSpanKeeps(env, service.store, span, receivedAt, maxSpans);
    CurrentInHistory(env, service.store);
    var store' := InsertSpan(service.store, span, receivedAt, maxSpans).0;
    HistoryKept(service.store, store', service.store.run);
    CurrentInHistory(env, store');
  }

  lemma FinalizeMoves(env: Env, service: Service, now: Time)
    requires ServiceInvariant(env, service)
    ensures var (service', ok) := FinalizeWithJob(env, service, now);
            && Moved(env, service, service')
            && (ok ==> Rank(service'.store.run.state) >= 4)
            && (service.store.run.state == Settling && !StillSettling(service.store.run, now) ==>
                  ok && service'.store.run.state == Evaluating
                  && service'.queue == Enqueue(service.queue, EvaluateJob, now))
  {
    var store, input := service.store, Input(now, None, 0);
    var (store', ok) := FinalizeRun(env, store, now);
    FinalizeIsUninterrupted(env, store, input);
    UseCaseKeeps(env, store, FinalizeCheck, input, store');
    if store.bundle.Some? {
      FinalizingIsFrozen(env, store);
    } else if ok {
      EnqueueServes(store.run, store'.run, service.queue, EvaluateJob, now);
    }
  }

  lemma ShowingEnds(store: Store, summary: Summary, now: Time)
    ensures var (store', ok) := ShowVerdict(store, summary, now);
            && (ok <==> store.run.state == Evaluating || store.run.state == Completed)
            && (ok ==> store'.run.state == Completed)
            && (!ok ==> store' == store)
  {
  }

  lemma EvaluateEnds(env: Env, store: Store, input: Input)
    requires WellFormedRun(store.run) && store.run.state != Finalizing
    requires store.bundle.Some? ==> Rank(store.run.state) >= 3
    requires store.summary.Some? ==> store.bundle.Some?
    ensures var (store', ok) := EvaluateRun(env, store, input);
            && (ok ==> Rank(store'.run.state) >= 5)
            && (store'.run.state != store.run.state ==> IsTerminal(store'.run.state))
  {
    if store.summary.Some? {
      ShowingEnds(store, store.summary.value, input.now);
    } else if store.bundle.Some? && input.pack.Some? {
      var summary := Summary(Score(env, store.run, input.pack.value, store.bundle.value), input.nonce);
      ShowingEnds(SaveSummary(store, summary, input.now).0, summary, input.now);
    }
  }

  lemma EvaluateMoves(env: Env, service: Service, input: Input)
    requires ServiceInvariant(env, service)
    ensures var (store, ok) := EvaluateRun(env, service.store, input);
            && Moved(env, service, service.(store := store))
            && (ok ==> Rank(store.run.state) >= 5)
            && (store.run.state != service.store.run.state ==> IsTerminal(store.run.state))
  {
    var store := service.store;
    CurrentInHistory(env, store);
    assert SoundRun(store, store.run);
    EvaluateIsUninterrupted(env, store, input);
    UseCaseKeeps(env, store, EvaluateCheck, input, EvaluateRun(env, store, input).0);
    if store.bundle.Some? {
      FinalizingIsFrozen(env, store);
    }
    EvaluateEnds(env, store, input);
  }

  // ---------------------------------------------------------------- dispatching and recording

  /** Putting an idle job back is no loss: no state depends on it. */
  lemma RescheduleServes(env: Env, service: Service, id: nat, attempt: nat, at: Time)
    requires ServiceInvariant(env, service)
    requires id < |service.queue| && service.queue[id].kind == IdleJob
    ensures ServiceInvariant(env, service.(queue := RescheduleJob(service.queue, id, attempt, at)))
  {
    var queue' := RescheduleJob(service.queue, id, attempt, at);
    assert forall kind, i: nat :: LiveAt(queue', kind, i) <==> LiveAt(service.queue, kind, i);
  }

  lemma DispatchMoves(
    env: Env, settings: Settings, service: Service, kind: JobKind, id: nat, attempt: nat, input: Input)
    requires ServiceInvariant(env, service)
    requires id < |service.queue| && service.queue[id].kind == kind
    ensures var (service', outcome) := Dispatch(env, settings, service, kind, id, attempt, input);
            && ServiceInvariant(env, service')
            && Rank(service.store.run.state) <= Rank(service'.store.run.state)
            && (outcome == Rescheduled ==>
                  exists at :: service' == service.(queue := RescheduleJob(service.queue, id, attempt, at)))
            && (outcome != Rescheduled ==> Moved(env, service, service'))
            && (outcome == Finished ==> Rank(service'.store.run.state) >= DoneRank(kind))
            && (outcome == Refused ==> kind == FinalizeJob || kind == EvaluateJob)
  {
    match kind
    case TimeoutJob =>
      CompleteMoves(env, service, CompletionRequest(MaxDuration, Some("timed_out"), 0), input.now);
    case IdleJob =>
      CompleteMoves(env, service, CompletionRequest(IdleTimeout, Some("timed_out"), 0), input.now);
      RescheduleServes(env, service, id, attempt, IdleDeadline(settings, service.store.run));
    case FinalizeJob => FinalizeMoves(env, service, input.now);
    case EvaluateJob => EvaluateMoves(env, service, input);
  }

  /** Changing one job without reviving it keeps the run served if that job is not the needed one, or stays alive. */
  lemma ReplaceServes(before: Run, after: Run, queue: seq<Job>, id: nat, job: Job)
    requires OneLivePerKind(queue) && Served(before, queue) && id < |queue|
    requires job.kind == queue[id].kind && job.attempts == queue[id].attempts && (Live(job) ==> Live(queue[id]))
    requires job.kind == TimeoutJob ==> !Live(job)
    requires IsTerminal(after.state)
             || (after == before && (Live(job) == Live(queue[id]) || job.kind != NeededKind(before.state)))
    requires Rank(before.state) <= Rank(after.state)
    ensures OneLivePerKind(queue[id := job]) && Served(after, queue[id := job]) && KeepsJobs(queue, queue[id := job])
  {
    var queue' := queue[id := job];
    assert forall kind, i: nat | i != id :: LiveAt(queue', kind, i) <==> LiveAt(queue, kind, i);
    assert forall kind :: LiveAt(queue', kind, id) ==> LiveAt(queue, kind, id);
    if !IsTerminal(after.state) {
      var i :| LiveAt(queue, NeededKind(before.state), i);
      assert LiveAt(queue', NeededKind(before.state), i);
    }
  }

  /** A finished job is no longer needed; a refused one is retried, or its run is failed. */
  lemma RecordMoves(
    env: Env, settings: Settings, service: Service, id: nat, attempt: nat, outcome: Outcome, now: Time)
    requires ServiceInvariant(env, service)
    requires outcome != Rescheduled && id < |service.queue|
    requires outcome == Finished ==> Rank(service.store.run.state) >= DoneRank(service.queue[id].kind)
    requires outcome == Refused ==> service.queue[id].kind == FinalizeJob || service.queue[id].kind == EvaluateJob
    ensures Moved(env, service, Record(settings, service, id, attempt, outcome, now))
  {
    if Holds(service.queue, id, attempt) {
      FailMoves(env, service, now);
      var service' := Record(settings, service, id, attempt, outcome, now);
      var run, run' := service.store.run, service'.store.run;
      ReplaceServes(run, run', service.queue, id, service'.queue[id]);
      assert service'.queue == service.queue[id := service'.queue[id]];
    }
  }

  /** A claim hands the job out under an attempt number that no earlier lease has. */
  lemma ClaimMoves(env: Env, settings: Settings, system: System, worker: nat, id: nat, now: Time)
    requires SystemInvariant(env, system)
    requires worker !in system.leases && EarliestDue(system.service.queue, id, now)
    ensures SystemInvariant(env, Make(env, settings, system, Claims(worker, id, now)))
  {
    var queue := system.service.queue;
    var queue' := ClaimJob(queue, id, now, settings.leaseSeconds);
    assert forall kind, i: nat :: LiveAt(queue', kind, i) <==> LiveAt(queue, kind, i);
  }

  lemma RescheduledLeases(run: Run, queue: seq<Job>, leases: map<nat, Lease>, worker: nat, at: Time)
    requires LeasesFit(run, queue, leases) && worker in leases
    ensures LeasesFit(run, RescheduleJob(queue, leases[worker].id, leases[worker].attempt, at), leases - {worker})
  {
  }

  lemma MakeKeeps(env: Env, settings: Settings, system: System, move: Move)
    requires SystemInvariant(env, system)
    ensures SystemInvariant(env, Make(env, settings, system, move))
    ensures Rank(system.service.store.run.state) <= Rank(Make(env, settings, system, move).service.store.run.state)
  {
    var System(service, leases) := system;
    var run, run' := service.store.run, Make(env, settings, system, move).service.store.run;
    var queue, queue' := service.queue, Make(env, settings, system, move).service.queue;
    match move
    case Claims(worker, id, now) =>
      if worker !in leases && EarliestDue(queue, id, now) {
        ClaimMoves(env, settings, system, worker, id, now);
      }
    case Dispatches(worker, input) =>
      if worker in leases && leases[worker].outcome.None? {
        var lease := leases[worker];
        DispatchMoves(env, settings, service, lease.kind, lease.id, lease.attempt, input);
        var (service', outcome) := Dispatch(env, settings, service, lease.kind, lease.id, lease.attempt, input);
        if outcome == Rescheduled {
          var at :| service' == service.(queue := RescheduleJob(queue, lease.id, lease.attempt, at));
          RescheduledLeases(run, queue, leases, worker, at);
        } else {
          LeasesStillFit(run, run', queue, queue', leases);
        }
      }
    case Records(worker, now) =>
      if worker in leases && leases[worker].outcome.Some? {
        var lease := leases[worker];
        RecordMoves(env, settings, service, lease.id, lease.attempt, lease.outcome.value, now);
        LeasesStillFit(run, run', queue, queue', leases);
      }
    case Vanishes(_) =>
    case SpanArrives(span, receivedAt, maxSpans) =>
      SpanMoves(env, service, span, receivedAt, maxSpans);
      LeasesStillFit(run, run', queue, queue', leases);
    case BatchReconciled(batch) =>
      ReconcileMoves(env, settings, service, batch);
      LeasesStillFit(run, run', queue, queue', leases);
    case CompletionRequested(request, now) =>
      CompleteMoves(env, service, request, now);
      LeasesStillFit(run, run', queue, queue', leases);
    case CancelRequested(now) =>
      CancelMoves(env, service, now);
      LeasesStillFit(run, run', queue, queue', leases);
  }

  // ---------------------------------------------------------------- main results

  lemma OpenedKeeps(env: Env, request: CreateRequest, pack: Pack, now: Time)
    requires CreateRun(request, pack, now).Ok?
    ensures SystemInvariant(env, System(Opened(CreateRun(request, pack, now).value), map[]))
  {
    var service := Opened(CreateRun(request, pack, now).value);
    InitialKeeps(env, World(service.store, map[]));
    assert LiveAt(service.queue, NeededKind(service.store.run.state), 0);
  }

  lemma {:induction false} MakeAllKeeps(env: Env, settings: Settings, system: System, moves: seq<Move>)
    requires SystemInvariant(env, system)
    ensures SystemInvariant(env, MakeAll(env, settings, system, moves))
    decreases |moves|
  {
    if moves != [] {
      MakeAllKeeps(env, settings, system, moves[..|moves| - 1]);
      MakeKeeps(env, settings, MakeAll(env, settings, system, moves[..|moves| - 1]), moves[|moves| - 1]);
    }
  }

  /**
   * Whatever workers, telemetry and requests do, an open run always has exactly one live job of the
   * kind that moves it on, and no use case leaves it in Finalizing.
   */
  lemma OpenRunsKeepTheirJob(env: Env, settings: Settings, request: CreateRequest, pack: Pack, now: Time, moves: seq<Move>)
    requires CreateRun(request, pack, now).Ok?
    ensures var first := System(Opened(CreateRun(request, pack, now).value), map[]);
            var service := MakeAll(env, settings, first, moves).service;
            && service.store.run.state != Finalizing
            && (!IsTerminal(service.store.run.state) ==>
                  exists id :: LiveAt(service.queue, NeededKind(service.store.run.state), id)
                    && forall other | LiveAt(service.queue, NeededKind(service.store.run.state), other) :: other == id)
  {
    var first := System(Opened(CreateRun(request, pack, now).value), map[]);
    OpenedKeeps(env, request, pack, now);
    MakeAllKeeps(env, settings, first, moves);
    var service := MakeAll(env, settings, first, moves).service;
    if !IsTerminal(service.store.run.state) {
      var id :| LiveAt(service.queue, NeededKind(service.store.run.state), id);
      assert forall other | LiveAt(service.queue, NeededKind(service.store.run.state), other) :: other == id;
    }
  }

  /**
   * A lease is exclusive although a rescheduled job is handed out again under the same attempt number:
   * of several workers that claimed one job, at most one can still record an outcome.
   */
  lemma OneLeaseCanRecord(
    env: Env, settings: Settings, request: CreateRequest, pack: Pack, now: Time, moves: seq<Move>, one: nat, other: nat)
    requires CreateRun(request, pack, now).Ok?
    requires var leases := MakeAll(env, settings, System(Opened(CreateRun(request, pack, now).value), map[]), moves).leases;
             one in leases && other in leases && one != other && leases[one].id == leases[other].id
    ensures var system := MakeAll(env, settings, System(Opened(CreateRun(request, pack, now).value), map[]), moves);
            && !(Holds(system.service.queue, system.leases[one].id, system.leases[one].attempt)
                 && Holds(system.service.queue, system.leases[other].id, system.leases[other].attempt))
  {
    OpenedKeeps(env, request, pack, now);
    MakeAllKeeps(env, settings, System(Opened(CreateRun(request, pack, now).value), map[]), moves);
  }
}
