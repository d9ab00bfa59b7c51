/**
 * Progress of one run when every tick of the worker is seen through: past the hard deadline each claimed
 * job spends from a budget that telemetry and cancellations never raise and a completion request raises
 * by at most one.
 */
module WorkerProgress {
  import opened Wrappers
  import opened Evidence
  import opened RunDomain
  import opened RunStore
  import opened RunProtocol
  import opened RunInvariant
  import opened UseCases
  import opened JobQueue
  import opened Worker
  import opened WorkerSafety

  /** The live job of a kind. */
  function JobOf(queue: seq<Job>, kind: JobKind): Option<Job> {
    match FindLive(queue, kind)
    case None => None
    case Some(id) => Some(queue[id])
  }

  /** A run that settles is finalized neither too early nor after its deadline. */
  ghost predicate Quiet(env: Env, service: Service) {
    && ServiceInvariant(env, service)
    && FinalizationFits(service.store.run, JobOf(service.queue, FinalizeJob))
  }

  ghost predicate AllPending(queue: seq<Job>) {
    forall kind :: JobOf(queue, kind).Some? ==> JobOf(queue, kind).value.status.Pending?
  }

  predicate FinalizationFits(run: Run, job: Option<Job>) {
    run.state == Settling ==>
      && run.settleUntil.Some? && job.Some?
      && run.settleUntil.value <= job.value.availableAt <= run.hardDeadlineAt
  }

  // ---------------------------------------------------------------- the budget

  function Alive(queue: seq<Job>, kind: JobKind): nat {
    if JobOf(queue, kind).Some? then 1 else 0
  }

  /** What is left of the attempts of a live evaluation job, at least one. */
  function AttemptsLeft(settings: Settings, queue: seq<Job>): nat {
    match JobOf(queue, EvaluateJob)
    case None => 1
    case Some(job) => Max(1, settings.maxAttempts - job.attempts)
  }

  /** One tick may be spent on an idle job that turns out not to be idle yet. */
  function IdleBudget(run: Run, queue: seq<Job>): nat {
    match JobOf(queue, IdleJob)
    case None => 1
    case Some(job) => if job.availableAt > run.hardDeadlineAt then 0 else 1
  }

  /** Weighs the rest of the run's life by its state first and by the live jobs and attempts left second. */
  function Budget(settings: Settings, service: Service): nat {
    var Service(store, queue) := service;
    match store.run.state
    case Created => Max(1, settings.maxAttempts) + 3 + IdleBudget(store.run, queue)
    case Collecting => Max(1, settings.maxAttempts) + 3 + IdleBudget(store.run, queue)
    case Settling => Max(1, settings.maxAttempts) + 1 + Alive(queue, TimeoutJob) + Alive(queue, IdleJob)
    case Evaluating =>
      AttemptsLeft(settings, queue) + Alive(queue, TimeoutJob) + Alive(queue, IdleJob) + Alive(queue, FinalizeJob)
    case _ => 0
  }

  // ---------------------------------------------------------------- the live jobs under each queue operation

  function Postponed(job: Option<Job>, kind: JobKind, at: Time): Job {
    match job
    case None => Job(kind, Pending, 0, at)
    case Some(live) => live.(availableAt := Max(live.availableAt, at))
  }

  lemma EnqueueJobOf(queue: seq<Job>, kind: JobKind, at: Time)
    requires OneLivePerKind(queue)
    ensures var queue' := Enqueue(queue, kind, at);
            && OneLivePerKind(queue')
            && JobOf(queue', kind) == Some(Postponed(JobOf(queue, kind), kind, at))
            && (forall other | other != kind :: JobOf(queue', other) == JobOf(queue, other))
            && (forall other, id: nat | other != kind && LiveAt(queue, other, id) ::
                  LiveAt(queue', other, id) && queue'[id] == queue[id])
            && (AllPending(queue) ==> AllPending(queue'))
  {
    var queue' := Enqueue(queue, kind, at);
    EnqueueKeeps(queue, kind, at);
    forall other | other != kind ensures JobOf(queue', other) == JobOf(queue, other) {
      if FindLive(queue, other).Some? {
        assert LiveAt(queue', other, FindLive(queue, other).value);
      }
      if FindLive(queue', other).Some? {
        assert LiveAt(queue, other, FindLive(queue', other).value);
      }
    }
    match FindLive(queue, kind)
    case None => assert LiveAt(queue', kind, |queue|);
    case Some(id) => assert LiveAt(queue', kind, id);
  }

  lemma ReplaceJobOf(queue: seq<Job>, id: nat, job: Job)
    requires OneLivePerKind(queue) && LiveAt(queue, job.kind, id)
    ensures var queue' := queue[id := job];
            && JobOf(queue', job.kind) == (if Live(job) then Some(job) else None)
            && forall other | other != job.kind :: JobOf(queue', other) == JobOf(queue, other)
  {
    var queue' := queue[id := job];
    assert forall kind, i: nat | i != id :: LiveAt(queue', kind, i) <==> LiveAt(queue, kind, i);
    forall other | other != job.kind ensures JobOf(queue', other) == JobOf(queue, other) {
      if FindLive(queue, other).Some? {
        assert LiveAt(queue', other, FindLive(queue, other).value);
      }
      if FindLive(queue', other).Some? {
        assert LiveAt(queue, other, FindLive(queue', other).value);
      }
    }
    if Live(job) {
      assert LiveAt(queue', job.kind, id);
    }
  }

  lemma TheLiveJob(queue: seq<Job>, kind: JobKind, id: nat)
    requires OneLivePerKind(queue) && LiveAt(queue, kind, id)
    ensures JobOf(queue, kind) == Some(queue[id])
  {
  }

  // ---------------------------------------------------------------- moves from outside

  function Cost(move: Move): nat {
    if move.CompletionRequested? then 1 else 0
  }

  /** Postponing or adding the finalize job of a settling run keeps the budget. */
  lemma SettlingKeepsBudget(settings: Settings, before: Service, after: Service)
    requires OneLivePerKind(before.queue)
    requires before.store.run.state == Settling || Unsettled(before.store.run)
    requires after.store.run.state == Settling && after.store.run.settleUntil.Some?
    requires after.queue == Enqueue(before.queue, FinalizeJob, after.store.run.settleUntil.value)
    ensures Budget(settings, after) <= Budget(settings, before)
  {
    EnqueueJobOf(before.queue, FinalizeJob, after.store.run.settleUntil.value);
  }

  lemma SettlingStaysQuiet(env: Env, before: Service, after: Service)
    requires Quiet(env, before) && ServiceInvariant(env, after)
    requires before.store.run.state == Settling || JobOf(before.queue, FinalizeJob).None?
    requires after.store.run.state == Settling && after.store.run.settleUntil.Some?
    requires after.store.run.hardDeadlineAt == before.store.run.hardDeadlineAt
    requires after.queue == Enqueue(before.queue, FinalizeJob, after.store.run.settleUntil.value)
    ensures Quiet(env, after)
  {
    EnqueueJobOf(before.queue, FinalizeJob, after.store.run.settleUntil.value);
    CurrentInHistory(env, after.store);
    assert SoundRun(after.store, after.store.run);
  }

  lemma UnsettledHasNoFinalizeJob(env: Env, service: Service)
    requires ServiceInvariant(env, service) && Unsettled(service.store.run)
    ensures JobOf(service.queue, FinalizeJob).None? && JobOf(service.queue, EvaluateJob).None?
  {
  }

  /** What a reconciled batch may do to the state and the jobs. */
  ghost predicate BatchShape(before: Service, after: Service) {
    var run, run' := before.store.run, after.store.run;
    && run'.hardDeadlineAt == run.hardDeadlineAt
    && (run'.state == run.state || (Unsettled(run) && (run'.state == Collecting || run'.state == Settling)))
    && match run'.state
       case Settling =>
         run'.settleUntil.Some? && after.queue == Enqueue(before.queue, FinalizeJob, run'.settleUntil.value)
       case Collecting => exists at :: after.queue == Enqueue(before.queue, IdleJob, at)
       case _ => after.queue == before.queue
  }

  lemma BatchHasShape(env: Env, settings: Settings, service: Service, batch: Batch)
    requires ServiceInvariant(env, service)
    ensures BatchShape(service, ReconcileWithJob(settings, service, batch))
  {
    ReconcileMoves(env, settings, service, batch);
    ReconciledStore(env, service.store, batch, settings.settleSeconds);
    var service' := ReconcileWithJob(settings, service, batch);
    if service'.store.run.state == Settling {
      SettlingRunsHaveATime(env, service'.store);
    }
  }

  lemma ShapeSpends(env: Env, settings: Settings, service: Service, service': Service)
    requires Quiet(env, service) && ServiceInvariant(env, service') && BatchShape(service, service')
    ensures Quiet(env, service') && Budget(settings, service') <= Budget(settings, service)
    ensures AllPending(service.queue) ==> AllPending(service'.queue)
    ensures JobOf(service'.queue, EvaluateJob) == JobOf(service.queue, EvaluateJob)
  {
    if service'.store.run.state == Settling {
      if Unsettled(service.store.run) {
        UnsettledHasNoFinalizeJob(env, service);
      }
      SettlingKeepsBudget(settings, service, service');
      SettlingStaysQuiet(env, service, service');
      EnqueueJobOf(service.queue, FinalizeJob, service'.store.run.settleUntil.value);
    } else if service'.store.run.state == Collecting {
      var at :| service'.queue == Enqueue(service.queue, IdleJob, at);
      EnqueueJobOf(service.queue, IdleJob, at);
    }
  }

  lemma BatchSpends(env: Env, settings: Settings, service: Service, batch: Batch)
    requires Quiet(env, service)
    ensures var service' := ReconcileWithJob(settings, service, batch);
            && Quiet(env, service')
            && (AllPending(service.queue) ==> AllPending(service'.queue))
            && JobOf(service'.queue, EvaluateJob) == JobOf(service.queue, EvaluateJob)
            && Budget(settings, service') <= Budget(settings, service)
            && service'.store.run.hardDeadlineAt == service.store.run.hardDeadlineAt
  {
    ReconcileMoves(env, settings, service, batch);
    BatchHasShape(env, settings, service, batch);
    ShapeSpends(env, settings, service, ReconcileWithJob(settings, service, batch));
  }

  /** What a completion request may do to the state and the jobs. */
  ghost predicate CompletionShape(before: Service, after: Service) {
    var run, run' := before.store.run, after.store.run;
    && run'.hardDeadlineAt == run.hardDeadlineAt
    && if run'.state == Settling && after != before then
         && (run.state == Settling || Unsettled(run))
         && run'.settleUntil.Some?
         && after.queue == Enqueue(before.queue, FinalizeJob, run'.settleUntil.value)
       else
         && run' == run && (Unsettled(run) ==> after == before)
         && (after.queue == before.queue || exists at :: after.queue == Enqueue(before.queue, FinalizeJob, at))
  }

  lemma CompletionHasShape(env: Env, service: Service, request: CompletionRequest, now: Time)
    requires ServiceInvariant(env, service)
    ensures CompletionShape(service, CompleteWithJob(service, request, now).0)
  {
    CompleteMoves(env, service, request, now);
    var service' := CompleteWithJob(service, request, now).0;
    CurrentInHistory(env, service.store);
    assert SoundRun(service.store, service.store.run);
    if service'.store.run.state == Settling {
      SettlingRunsHaveATime(env, service'.store);
    }
  }

  lemma CompletionShapeSpends(env: Env, settings: Settings, service: Service, service': Service)
    requires Quiet(env, service) && ServiceInvariant(env, service') && CompletionShape(service, service')
    ensures Quiet(env, service') && Budget(settings, service') <= Budget(settings, service) + 1
    ensures AllPending(service.queue) ==> AllPending(service'.queue)
    ensures JobOf(service'.queue, EvaluateJob) == JobOf(service.queue, EvaluateJob)
  {
    if service'.store.run.state == Settling && service' != service {
      if Unsettled(service.store.run) {
        UnsettledHasNoFinalizeJob(env, service);
      }
      SettlingKeepsBudget(settings, service, service');
      SettlingStaysQuiet(env, service, service');
      EnqueueJobOf(service.queue, FinalizeJob, service'.store.run.settleUntil.value);
    } else if service'.queue != service.queue {
      var at :| service'.queue == Enqueue(service.queue, FinalizeJob, at);
      EnqueueJobOf(service.queue, FinalizeJob, at);
    }
  }

  lemma CompletionSpends(env: Env, settings: Settings, service: Service, request: CompletionRequest, now: Time)
    requires Quiet(env, service)
    ensures var service' := CompleteWithJob(service, request, now).0;
            && Quiet(env, service')
            && (AllPending(service.queue) ==> AllPending(service'.queue))
            && JobOf(service'.queue, EvaluateJob) == JobOf(service.queue, EvaluateJob)
            && Budget(settings, service') <= Budget(settings, service) + 1
            && service'.store.run.hardDeadlineAt == service.store.run.hardDeadlineAt
  {
    CompleteMoves(env, service, request, now);
    CompletionHasShape(env, service, request, now);
    CompletionShapeSpends(env, settings, service, CompleteWithJob(service, request, now).0);
  }

  lemma SettlingRunsHaveATime(env: Env, store: Store)
    requires StoreInvariant(env, store) && store.run.state == Settling
    ensures store.run.settleUntil.Some? && store.run.settleUntil.value <= store.run.hardDeadlineAt
  {
    CurrentInHistory(env, store);
    assert SoundRun(store, store.run);
  }

  lemma ExternalSpends(env: Env, settings: Settings, service: Service, move: Move)
    requires Quiet(env, service) && IsExternal(move)
    ensures var service' := External(settings, service, move);
            && Quiet(env, service')
            && (AllPending(service.queue) ==> AllPending(service'.queue))
            && JobOf(service'.queue, EvaluateJob) == JobOf(service.queue, EvaluateJob)
            && Budget(settings, service') <= Budget(settings, service) + Cost(move)
            && service'.store.run.hardDeadlineAt == service.store.run.hardDeadlineAt
  {
    match move
    case SpanArrives(span, receivedAt, maxSpans) => SpanMoves(env, service, span, receivedAt, maxSpans);
    case BatchReconciled(batch) => BatchSpends(env, settings, service, batch);
    case CompletionRequested(request, now) => CompletionSpends(env, settings, service, request, now);
    case CancelRequested(now) => CancelMoves(env, service, now);
  }

  // ---------------------------------------------------------------- ticks

  /** A tick is a claim, a dispatch and a record by one worker with nothing in between. */
  lemma PollIsThreeMoves(env: Env, settings: Settings, service: Service, id: nat, input: Input)
    requires EarliestDue(service.queue, id, input.now)
    ensures var claimed := Make(env, settings, System(service, map[]), Claims(0, id, input.now));
            var dispatched := Make(env, settings, claimed, Dispatches(0, input));
            Make(env, settings, dispatched, Records(0, input.now))
              == System(Poll(env, settings, service, id, input), map[])
  {
    var claimed := Make(env, settings, System(service, map[]), Claims(0, id, input.now));
    var lease := claimed.leases[0];
    var (service', outcome) := Dispatch(env, settings, claimed.service, lease.kind, lease.id, lease.attempt, input);
    var dispatched := Make(env, settings, claimed, Dispatches(0, input));
    if outcome == Rescheduled {
      assert dispatched == System(service', map[]);
    } else {
      assert dispatched == System(service', map[0 := lease.(outcome := Some(outcome))]);
      assert dispatched.leases - {0} == map[];
    }
  }

  lemma PollKeeps(env: Env, settings: Settings, service: Service, id: nat, input: Input)
    requires ServiceInvariant(env, service) && EarliestDue(service.queue, id, input.now)
    ensures ServiceInvariant(env, Poll(env, settings, service, id, input))
    ensures Rank(service.store.run.state) <= Rank(Poll(env, settings, service, id, input).store.run.state)
  {
    PollIsThreeMoves(env, settings, service, id, input);
    var claimed := Make(env, settings, System(service, map[]), Claims(0, id, input.now));
    MakeKeeps(env, settings, System(service, map[]), Claims(0, id, input.now));
    MakeKeeps(env, settings, claimed, Dispatches(0, input));
    MakeKeeps(env, settings, Make(env, settings, claimed, Dispatches(0, input)), Records(0, input.now));
  }

  /** `service` with the job `id` claimed. */
  function Claimed(settings: Settings, service: Service, id: nat, now: Time): Service
    requires id < |service.queue|
  {
    service.(queue := ClaimJob(service.queue, id, now, settings.leaseSeconds))
  }

  lemma ClaimedFacts(env: Env, settings: Settings, service: Service, id: nat, now: Time)
    requires Quiet(env, service) && AllPending(service.queue)
    requires EarliestDue(service.queue, id, now)
    ensures var job, claimed := service.queue[id], Claimed(settings, service, id, now);
            && Quiet(env, claimed)
            && JobOf(service.queue, job.kind) == Some(job) && job.status.Pending? && job.availableAt <= now
            && LiveAt(claimed.queue, job.kind, id) && Holds(claimed.queue, id, job.attempts + 1)
            && JobOf(claimed.queue, job.kind) == Some(claimed.queue[id])
            && claimed.queue[id].availableAt == job.availableAt && claimed.queue[id].kind == job.kind
            && forall other | other != job.kind :: JobOf(claimed.queue, other) == JobOf(service.queue, other)
  {
    var job, claimed := service.queue[id], Claimed(settings, service, id, now);
    ClaimMoves(env, settings, System(service, map[]), 0, id, now);
    assert LiveAt(service.queue, job.kind, id);
    TheLiveJob(service.queue, job.kind, id);
    ReplaceJobOf(service.queue, id, claimed.queue[id]);
  }

  /** What recording an outcome under a valid lease does to the live jobs. */
  lemma RecordJobOf(settings: Settings, service: Service, id: nat, attempt: nat, outcome: Outcome, now: Time)
    requires OneLivePerKind(service.queue) && Holds(service.queue, id, attempt) && outcome != Rescheduled
    ensures var job, queue := service.queue[id], Record(settings, service, id, attempt, outcome, now).queue;
            && JobOf(queue, job.kind) ==
                 (if outcome == Refused && attempt < settings.maxAttempts
                  then Some(job.(status := Pending, availableAt := now + BackoffSeconds(attempt))) else None)
            && forall other | other != job.kind :: JobOf(queue, other) == JobOf(service.queue, other)
  {
    var job' := Record(settings, service, id, attempt, outcome, now).queue[id];
    assert LiveAt(service.queue, job'.kind, id);
    ReplaceJobOf(service.queue, id, job');
  }

  /** What one tick achieves for a run that is still open; past the deadline it spends from the budget. */
  ghost predicate Spends(settings: Settings, service: Service, service': Service, now: Time) {
    && FinalizationFits(service'.store.run, JobOf(service'.queue, FinalizeJob))
    && AllPending(service'.queue)
    && service'.store.run.hardDeadlineAt == service.store.run.hardDeadlineAt
    && (!IsTerminal(service'.store.run.state) && now >= service.store.run.hardDeadlineAt ==>
          Budget(settings, service') < Budget(settings, service))
    && (forall horizon | EvaluatedBy(service, horizon) :: EvaluatedBy(service', Max(horizon, now + LONGEST_BACKOFF)))
  }

  const LONGEST_BACKOFF := 256

  /** The evaluation job, if there is one, is available by `horizon`. */
  predicate EvaluatedBy(service: Service, horizon: Time) {
    JobOf(service.queue, EvaluateJob).Some? ==> JobOf(service.queue, EvaluateJob).value.availableAt <= horizon
  }

  lemma BackoffIsBounded(attempts: nat)
    ensures BackoffSeconds(attempts) <= LONGEST_BACKOFF
  {
    PowerMonotone(Min(attempts, 8), 8);
    assert Power(2, 8) == 256;
  }

  lemma {:induction false} PowerMonotone(a: nat, b: nat)
    requires a <= b
    ensures Power(2, a) <= Power(2, b)
  {
    if a > 0 {
      PowerMonotone(a - 1, b - 1);
    } else if b > 0 {
      PowerMonotone(0, b - 1);
    }
  }

  /** A job that is found to have nothing left to do just goes away. */
  lemma LeftoverSpends(env: Env, settings: Settings, service: Service, id: nat, input: Input)
    requires Quiet(env, service) && AllPending(service.queue)
    requires EarliestDue(service.queue, id, input.now)
    requires !IsTerminal(service.store.run.state)
    requires service.queue[id].kind != NeededKind(service.store.run.state) && !Unsettled(service.store.run)
    requires service.queue[id].kind == EvaluateJob ==> Rank(service.store.run.state) >= 4
    ensures Spends(settings, service, Poll(env, settings, service, id, input), input.now)
  {
    var claimed := Claimed(settings, service, id, input.now);
    ClaimedFacts(env, settings, service, id, input.now);
    NothingLeftToDo(env, settings, claimed, service.queue[id].kind, id, claimed.queue[id].attempts, input);
    RecordJobOf(settings, claimed, id, claimed.queue[id].attempts, Finished, input.now);
  }

  lemma NothingLeftToDo(
    env: Env, settings: Settings, service: Service, kind: JobKind, id: nat, attempt: nat, input: Input)
    requires StoreInvariant(env, service.store) && service.store.run.state != Finalizing
    requires !IsTerminal(service.store.run.state) && !Unsettled(service.store.run)
    requires kind != NeededKind(service.store.run.state) && (kind == EvaluateJob ==> Rank(service.store.run.state) >= 4)
    ensures Dispatch(env, settings, service, kind, id, attempt, input) == (service, Finished)
  {
    if kind == FinalizeJob {
      CurrentInHistory(env, service.store);
      assert SoundRun(service.store, service.store.run);
    }
  }

  /** What completing an unsettled run does. */
  ghost predicate SettlesFrom(before: Service, after: Service) {
    && after.store.run.state == Settling
    && after.store.run.hardDeadlineAt == before.store.run.hardDeadlineAt
    && after.store.run.settleUntil.Some?
    && after.store.run.settleUntil.value <= after.store.run.hardDeadlineAt
    && after.queue == Enqueue(before.queue, FinalizeJob, after.store.run.settleUntil.value)
  }

  lemma CompletionSettles(env: Env, service: Service, request: CompletionRequest, now: Time)
    requires ServiceInvariant(env, service) && Unsettled(service.store.run)
    ensures CompleteWithJob(service, request, now).1
    ensures SettlesFrom(service, CompleteWithJob(service, request, now).0)
  {
    CompleteMoves(env, service, request, now);
    SettlingRunsHaveATime(env, CompleteWithJob(service, request, now).0.store);
  }

  lemma SettledSpends(env: Env, settings: Settings, service: Service, id: nat, dispatched: Service, now: Time)
    requires Quiet(env, service) && AllPending(service.queue)
    requires EarliestDue(service.queue, id, now)
    requires Unsettled(service.store.run)
    requires service.queue[id].kind == TimeoutJob || service.queue[id].kind == IdleJob
    requires SettlesFrom(Claimed(settings, service, id, now), dispatched)
    ensures Spends(settings, service,
                   Record(settings, dispatched, id, service.queue[id].attempts + 1, Finished, now), now)
  {
    var claimed := Claimed(settings, service, id, now);
    ClaimedFacts(env, settings, service, id, now);
    UnsettledHasNoFinalizeJob(env, service);
    EnqueueJobOf(claimed.queue, FinalizeJob, dispatched.store.run.settleUntil.value);
    RecordJobOf(settings, dispatched, id, service.queue[id].attempts + 1, Finished, now);
  }

  /** A timeout, or an idle job that is really idle, moves an unsettled run on. */
  lemma TimeoutSpends(
    env: Env, settings: Settings, service: Service, id: nat, reason: CompletionReason, input: Input)
    requires Quiet(env, service) && AllPending(service.queue)
    requires EarliestDue(service.queue, id, input.now)
    requires Unsettled(service.store.run)
    requires service.queue[id].kind == TimeoutJob || service.queue[id].kind == IdleJob
    ensures var (dispatched, outcome) := ProcessTimeout(Claimed(settings, service, id, input.now), reason, input.now);
            && outcome == Finished
            && Spends(settings, service,
                      Record(settings, dispatched, id, service.queue[id].attempts + 1, Finished, input.now), input.now)
  {
    var claimed := Claimed(settings, service, id, input.now);
    var request := CompletionRequest(reason, Some("timed_out"), 0);
    ClaimedFacts(env, settings, service, id, input.now);
    CompletionSettles(env, claimed, request, input.now);
    SettledSpends(env, settings, service, id, CompleteWithJob(claimed, request, input.now).0, input.now);
  }

  /** An idle job of a run that is not idle is put off; past the deadline, beyond it. */
  lemma IdleSpends(env: Env, settings: Settings, service: Service, id: nat, input: Input)
    requires Quiet(env, service) && AllPending(service.queue)
    requires EarliestDue(service.queue, id, input.now)
    requires Unsettled(service.store.run) && service.queue[id].kind == IdleJob
    ensures Spends(settings, service, Poll(env, settings, service, id, input), input.now)
  {
    var claimed, run := Claimed(settings, service, id, input.now), service.store.run;
    if IdleDeadline(settings, run) <= input.now {
      TimeoutSpends(env, settings, service, id, IdleTimeout, input);
    } else {
      PutOffSpends(env, settings, service, id, claimed, input);
    }
  }

  lemma PutOffSpends(env: Env, settings: Settings, service: Service, id: nat, claimed: Service, input: Input)
    requires Quiet(env, service) && AllPending(service.queue)
    requires EarliestDue(service.queue, id, input.now) && claimed == Claimed(settings, service, id, input.now)
    requires Unsettled(service.store.run) && service.queue[id].kind == IdleJob
    requires IdleDeadline(settings, service.store.run) > input.now
    ensures Spends(settings, service, Poll(env, settings, service, id, input), input.now)
  {
    var run := service.store.run;
    ClaimedFacts(env, settings, service, id, input.now);
    if input.now >= run.hardDeadlineAt {
      TimeoutPrecedes(env, service, id, input.now);
    }
    var queue' := RescheduleJob(claimed.queue, id, service.queue[id].attempts + 1, IdleDeadline(settings, run));
    ReplaceJobOf(claimed.queue, id, queue'[id]);
    assert queue' == claimed.queue[id := queue'[id]];
  }

  /** Past the deadline only an idle job from before the deadline is claimed ahead of the timeout. */
  lemma TimeoutPrecedes(env: Env, service: Service, id: nat, now: Time)
    requires ServiceInvariant(env, service) && AllPending(service.queue)
    requires Unsettled(service.store.run) && now >= service.store.run.hardDeadlineAt
    requires EarliestDue(service.queue, id, now)
    ensures service.queue[id].availableAt <= service.store.run.hardDeadlineAt
  {
    var timeout: nat :| LiveAt(service.queue, NeededKind(service.store.run.state), timeout);
    TheLiveJob(service.queue, TimeoutJob, timeout);
    assert Due(service.queue[timeout], now);
  }

  lemma SealedSpends(env: Env, settings: Settings, service: Service, id: nat, dispatched: Service, now: Time)
    requires Quiet(env, service) && AllPending(service.queue)
    requires EarliestDue(service.queue, id, now)
    requires service.store.run.state == Settling && service.queue[id].kind == FinalizeJob
    requires dispatched.store.run.state == Evaluating
    requires dispatched.store.run.hardDeadlineAt == service.store.run.hardDeadlineAt
    requires dispatched.queue == Enqueue(Claimed(settings, service, id, now).queue, EvaluateJob, now)
    ensures Spends(settings, service,
                   Record(settings, dispatched, id, service.queue[id].attempts + 1, Finished, now), now)
  {
    ClaimedFacts(env, settings, service, id, now);
    NothingToEvaluateYet(env, service);
    EnqueueJobOf(Claimed(settings, service, id, now).queue, EvaluateJob, now);
    RecordJobOf(settings, dispatched, id, service.queue[id].attempts + 1, Finished, now);
  }

  lemma FinalizeSpends(env: Env, settings: Settings, service: Service, id: nat, input: Input)
    requires Quiet(env, service) && AllPending(service.queue)
    requires EarliestDue(service.queue, id, input.now)
    requires service.store.run.state == Settling && service.queue[id].kind == FinalizeJob
    ensures Spends(settings, service, Poll(env, settings, service, id, input), input.now)
  {
    var claimed := Claimed(settings, service, id, input.now);
    ClaimedFacts(env, settings, service, id, input.now);
    FinalizeMoves(env, claimed, input.now);
    SealedSpends(env, settings, service, id, FinalizeWithJob(env, claimed, input.now).0, input.now);
  }

  lemma NothingToEvaluateYet(env: Env, service: Service)
    requires ServiceInvariant(env, service) && Rank(service.store.run.state) < 4
    ensures JobOf(service.queue, EvaluateJob).None?
  {
  }

  /** An evaluation ends the run, or is refused and changes nothing about its lifecycle. */
  ghost predicate Evaluates(before: Service, after: Service, outcome: Outcome) {
    && after.queue == before.queue
    && after.store.run.hardDeadlineAt == before.store.run.hardDeadlineAt
    && (IsTerminal(after.store.run.state) || (outcome == Refused && after.store.run.state == Evaluating))
    && outcome != Rescheduled
  }

  lemma DispatchEvaluates(env: Env, settings: Settings, service: Service, id: nat, attempt: nat, input: Input)
    requires ServiceInvariant(env, service) && service.store.run.state == Evaluating
    ensures var (dispatched, outcome) := Dispatch(env, settings, service, EvaluateJob, id, attempt, input);
            Evaluates(service, dispatched, outcome)
  {
    EvaluateMoves(env, service, input);
  }

  lemma RetrySpends(
    env: Env, settings: Settings, service: Service, id: nat, dispatched: Service, outcome: Outcome, now: Time)
    requires Quiet(env, service) && AllPending(service.queue)
    requires EarliestDue(service.queue, id, now)
    requires service.store.run.state == Evaluating && service.queue[id].kind == EvaluateJob
    requires Evaluates(Claimed(settings, service, id, now), dispatched, outcome)
    ensures Spends(settings, service,
                   Record(settings, dispatched, id, service.queue[id].attempts + 1, outcome, now), now)
  {
    ClaimedFacts(env, settings, service, id, now);
    BackoffIsBounded(service.queue[id].attempts + 1);
    RecordJobOf(settings, dispatched, id, service.queue[id].attempts + 1, outcome, now);
  }

  lemma EvaluateSpends(env: Env, settings: Settings, service: Service, id: nat, input: Input)
    requires Quiet(env, service) && AllPending(service.queue)
    requires EarliestDue(service.queue, id, input.now)
    requires service.store.run.state == Evaluating && service.queue[id].kind == EvaluateJob
    ensures Spends(settings, service, Poll(env, settings, service, id, input), input.now)
  {
    var claimed, attempt := Claimed(settings, service, id, input.now), service.queue[id].attempts + 1;
    ClaimedFacts(env, settings, service, id, input.now);
    DispatchEvaluates(env, settings, claimed, id, attempt, input);
    var (dispatched, outcome) := Dispatch(env, settings, claimed, EvaluateJob, id, attempt, input);
    RetrySpends(env, settings, service, id, dispatched, outcome, input.now);
  }

  /** Every tick that claims a job of an open run leaves things in order and, past the deadline, spends from the budget. */
  lemma PollSpends(env: Env, settings: Settings, service: Service, id: nat, input: Input)
    requires Quiet(env, service) && AllPending(service.queue)
    requires EarliestDue(service.queue, id, input.now)
    requires !IsTerminal(service.store.run.state)
    ensures Quiet(env, Poll(env, settings, service, id, input))
    ensures Spends(settings, service, Poll(env, settings, service, id, input), input.now)
  {
    var kind, state := service.queue[id].kind, service.store.run.state;
    PollKeeps(env, settings, service, id, input);
    KindsMatch(env, service, id, input.now);
    if Unsettled(service.store.run) {
      if kind == TimeoutJob {
        TimeoutSpends(env, settings, service, id, MaxDuration, input);
      } else {
        IdleSpends(env, settings, service, id, input);
      }
    } else if kind != NeededKind(state) {
      LeftoverSpends(env, settings, service, id, input);
    } else if kind == FinalizeJob {
      FinalizeSpends(env, settings, service, id, input);
    } else {
      EvaluateSpends(env, settings, service, id, input);
    }
  }

  lemma KindsMatch(env: Env, service: Service, id: nat, now: Time)
    requires ServiceInvariant(env, service) && EarliestDue(service.queue, id, now)
    ensures Unsettled(service.store.run) ==> service.queue[id].kind == TimeoutJob || service.queue[id].kind == IdleJob
    ensures service.queue[id].kind == EvaluateJob ==> Rank(service.store.run.state) >= 4
  {
    assert LiveAt(service.queue, service.queue[id].kind, id);
  }

  /** Once the deadline has passed and the longest backoff is over, an open run has a due job. */
  lemma SomethingIsDue(env: Env, service: Service, now: Time)
    requires Quiet(env, service) && AllPending(service.queue)
    requires !IsTerminal(service.store.run.state)
    requires now >= service.store.run.hardDeadlineAt && EvaluatedBy(service, now)
    ensures exists id :: EarliestDue(service.queue, id, now)
  {
    var id: nat :| LiveAt(service.queue, NeededKind(service.store.run.state), id);
    TheLiveJob(service.queue, NeededKind(service.store.run.state), id);
    EarliestDueExists(service.queue, now, id);
  }

  // ---------------------------------------------------------------- whole runs

  /**
   * A tick that may claim a job of this run, a tick that went to a job of another run (or whose claim failed),
   * or something that happens outside the worker.
   */
  datatype Turn = Tick(id: nat, input: Input) | Elsewhere(now: Time) | Outside(move: Move)

  function Play(env: Env, settings: Settings, service: Service, turn: Turn): Service {
    match turn
    case Tick(id, input) =>
      if EarliestDue(service.queue, id, input.now) then Poll(env, settings, service, id, input) else service
    case Elsewhere(_) => service
    case Outside(move) => if IsExternal(move) then External(settings, service, move) else service
  }

  function PlayAll(env: Env, settings: Settings, service: Service, turns: seq<Turn>): Service
    decreases |turns|
  {
    if turns == [] then service
    else Play(env, settings, PlayAll(env, settings, service, turns[..|turns| - 1]), turns[|turns| - 1])
  }

  /** A tick that claims a job. */
  predicate Takes(service: Service, turn: Turn) {
    turn.Tick? && EarliestDue(service.queue, turn.id, turn.input.now)
  }

  /** What a turn means for the clock and the counts. */
  datatype Beat = Beat(ticks: bool, now: Time, claims: bool, elsewhere: bool, requests: bool)

  function BeatOf(service: Service, turn: Turn): Beat {
    match turn
    case Tick(_, input) => Beat(true, input.now, Takes(service, turn), false, false)
    case Elsewhere(now) => Beat(true, now, false, true, false)
    case Outside(move) => Beat(false, 0, false, false, move.CompletionRequested?)
  }

  function Beats(env: Env, settings: Settings, service: Service, turns: seq<Turn>): (beats: seq<Beat>)
    ensures |beats| == |turns|
    decreases |turns|
  {
    if turns == [] then []
    else
      var before := turns[..|turns| - 1];
      Beats(env, settings, service, before) + [BeatOf(PlayAll(env, settings, service, before), turns[|turns| - 1])]
  }

  /** How many ticks claimed a job. */
  function ClaimCount(beats: seq<Beat>): nat {
    if beats == [] then 0 else ClaimCount(beats[..|beats| - 1]) + if beats[|beats| - 1].claims then 1 else 0
  }

  /** How many ticks went to other runs. */
  function ElsewhereCount(beats: seq<Beat>): nat {
    if beats == [] then 0 else ElsewhereCount(beats[..|beats| - 1]) + if beats[|beats| - 1].elsewhere then 1 else 0
  }

  /** How many completion requests arrived. */
  function RequestCount(beats: seq<Beat>): nat {
    if beats == [] then 0 else RequestCount(beats[..|beats| - 1]) + if beats[|beats| - 1].requests then 1 else 0
  }

  /** When the longest backoff after a claim, or what was left of the one before, is over; not while busy elsewhere. */
  function HorizonAfter(beat: Beat, horizon: Time): Time {
    if beat.claims then Max(horizon, beat.now + LONGEST_BACKOFF)
    else if beat.elsewhere then Max(horizon, beat.now)
    else horizon
  }

  /** When the longest backoff after the last claim is over and the worker was last seen elsewhere. */
  function Horizon(beats: seq<Beat>, start: Time): Time {
    if beats == [] then start else HorizonAfter(beats[|beats| - 1], Horizon(beats[..|beats| - 1], start))
  }

  function LastTick(beats: seq<Beat>, start: Time): Time {
    if beats == [] then start
    else if beats[|beats| - 1].ticks then beats[|beats| - 1].now
    else LastTick(beats[..|beats| - 1], start)
  }

  predicate PastDeadline(turns: seq<Turn>, deadline: Time) {
    forall k | 0 <= k < |turns| && turns[k].Tick? :: turns[k].input.now >= deadline
  }

  lemma BeatsPrefix(env: Env, settings: Settings, service: Service, turns: seq<Turn>, k: nat)
    requires k <= |turns|
    ensures Beats(env, settings, service, turns)[..k] == Beats(env, settings, service, turns[..k])
    ensures k < |turns| ==>
              Beats(env, settings, service, turns)[k] == BeatOf(PlayAll(env, settings, service, turns[..k]), turns[k])
    decreases |turns|
  {
    if turns != [] {
      var n := |turns| - 1;
      if k <= n {
        BeatsPrefix(env, settings, service, turns[..n], k);
        assert turns[..n][..k] == turns[..k];
        assert Beats(env, settings, service, turns)[..k] == Beats(env, settings, service, turns[..n])[..k];
      } else {
        assert turns[..k] == turns;
      }
    }
  }

  /** What holds between turns for a run that is still open. */
  ghost predicate Orderly(env: Env, service: Service, horizon: Time) {
    Quiet(env, service) && AllPending(service.queue) && EvaluatedBy(service, horizon)
  }

  /** One turn: a finished run stays finished; an open one stays orderly. */
  lemma PlayKeeps(env: Env, settings: Settings, service: Service, turn: Turn, horizon: Time)
    requires ServiceInvariant(env, service)
    requires IsTerminal(service.store.run.state) || Orderly(env, service, horizon)
    ensures var service' := Play(env, settings, service, turn);
            && ServiceInvariant(env, service')
            && (IsTerminal(service'.store.run.state)
                || (!IsTerminal(service.store.run.state)
                    && Orderly(env, service', HorizonAfter(BeatOf(service, turn), horizon))
                    && service'.store.run.hardDeadlineAt == service.store.run.hardDeadlineAt))
  {
    match turn
    case Tick(id, input) =>
      if EarliestDue(service.queue, id, input.now) {
        PollKeeps(env, settings, service, id, input);
        if !IsTerminal(service.store.run.state) {
          PollSpends(env, settings, service, id, input);
        }
      }
    case Elsewhere(_) =>
    case Outside(move) =>
      if IsExternal(move) {
        ExternalKeeps(env, settings, service, move);
        if !IsTerminal(service.store.run.state) {
          ExternalSpends(env, settings, service, move);
        }
      }
  }

  lemma ExternalKeeps(env: Env, settings: Settings, service: Service, move: Move)
    requires ServiceInvariant(env, service) && IsExternal(move)
    ensures Moved(env, service, External(settings, service, move))
  {
    match move
    case SpanArrives(span, receivedAt, maxSpans) => SpanMoves(env, service, span, receivedAt, maxSpans);
    case BatchReconciled(batch) => ReconcileMoves(env, settings, service, batch);
    case CompletionRequested(request, now) => CompleteMoves(env, service, request, now);
    case CancelRequested(now) => CancelMoves(env, service, now);
  }

  lemma {:induction false} PlayAllKeeps(env: Env, settings: Settings, service: Service, turns: seq<Turn>, horizon: Time)
    requires Orderly(env, service, horizon)
    ensures var service' := PlayAll(env, settings, service, turns);
            && ServiceInvariant(env, service')
            && (IsTerminal(service'.store.run.state)
                || (Orderly(env, service', Horizon(Beats(env, settings, service, turns), horizon))
                    && service'.store.run.hardDeadlineAt == service.store.run.hardDeadlineAt))
    decreases |turns|
  {
    if turns != [] {
      var before := turns[..|turns| - 1];
      PlayAllKeeps(env, settings, service, before, horizon);
      PlayKeeps(env, settings, PlayAll(env, settings, service, before), turns[|turns| - 1],
                Horizon(Beats(env, settings, service, before), horizon));
    }
  }

  /** A turn past the deadline spends for its claim and is charged for its completion request. */
  lemma TurnSpends(env: Env, settings: Settings, service: Service, turn: Turn)
    requires Quiet(env, service) && AllPending(service.queue) && !IsTerminal(service.store.run.state)
    requires turn.Tick? ==> turn.input.now >= service.store.run.hardDeadlineAt
    requires !IsTerminal(Play(env, settings, service, turn).store.run.state)
    ensures Budget(settings, Play(env, settings, service, turn)) + (if BeatOf(service, turn).claims then 1 else 0)
              <= Budget(settings, service) + (if BeatOf(service, turn).requests then 1 else 0)
  {
    match turn
    case Tick(id, input) =>
      if EarliestDue(service.queue, id, input.now) {
        PollSpends(env, settings, service, id, input);
      }
    case Elsewhere(_) =>
    case Outside(move) =>
      if IsExternal(move) {
        ExternalSpends(env, settings, service, move);
      }
  }

  /** However ticks are spaced, claims past the deadline use up the budget of a run that stays open. */
  lemma {:induction false} ClaimsSpend(env: Env, settings: Settings, service: Service, turns: seq<Turn>, horizon: Time)
    requires Orderly(env, service, horizon)
    requires PastDeadline(turns, service.store.run.hardDeadlineAt)
    requires !IsTerminal(PlayAll(env, settings, service, turns).store.run.state)
    ensures var beats := Beats(env, settings, service, turns);
            Budget(settings, PlayAll(env, settings, service, turns)) + ClaimCount(beats)
              <= Budget(settings, service) + RequestCount(beats)
    decreases |turns|
  {
    if turns != [] {
      var n := |turns| - 1;
      var before, turn := PlayAll(env, settings, service, turns[..n]), turns[n];
      PlayAllKeeps(env, settings, service, turns[..n], horizon);
      if IsTerminal(before.store.run.state) {
        PlayKeeps(env, settings, before, turn, Horizon(Beats(env, settings, service, turns[..n]), horizon));
      } else {
        ClaimsSpend(env, settings, service, turns[..n], horizon);
        TurnSpends(env, settings, before, turn);
        var beats := Beats(env, settings, service, turns);
        assert beats[..n] == Beats(env, settings, service, turns[..n]);
      }
    }
  }

  lemma OpenedIsOrderly(env: Env, request: CreateRequest, pack: Pack, now: Time)
    requires CreateRun(request, pack, now).Ok?
    ensures var service := Opened(CreateRun(request, pack, now).value);
            Orderly(env, service, service.store.run.hardDeadlineAt)
  {
    OpenedKeeps(env, request, pack, now);
  }

  lemma BudgetIsBounded(env: Env, settings: Settings, service: Service)
    requires Quiet(env, service)
    ensures Budget(settings, service) <= Max(1, settings.maxAttempts) + 4
    ensures !IsTerminal(service.store.run.state) ==> Budget(settings, service) >= 1
  {
  }

  /**
   * Every run ends. Whatever happened before, and however ticks are spaced, once enough ticks past the hard
   * deadline have claimed a job a run is completed, cancelled or failed. How many are enough grows only with
   * the permitted attempts and the completion requests that arrive meanwhile; telemetry cannot delay it.
   */
  lemma EveryRunEnds(
    env: Env, settings: Settings, request: CreateRequest, pack: Pack, now: Time, early: seq<Turn>, late: seq<Turn>)
    requires CreateRun(request, pack, now).Ok?
    requires var start := Opened(CreateRun(request, pack, now).value);
             var beats := Beats(env, settings, PlayAll(env, settings, start, early), late);
             && PastDeadline(late, start.store.run.hardDeadlineAt)
             && ClaimCount(beats) >= Max(1, settings.maxAttempts) + 4 + RequestCount(beats)
    ensures var start := Opened(CreateRun(request, pack, now).value);
            IsTerminal(PlayAll(env, settings, PlayAll(env, settings, start, early), late).store.run.state)
  {
    var start := Opened(CreateRun(request, pack, now).value);
    var deadline := start.store.run.hardDeadlineAt;
    var middle := PlayAll(env, settings, start, early);
    OpenedIsOrderly(env, request, pack, now);
    PlayAllKeeps(env, settings, start, early, deadline);
    if IsTerminal(middle.store.run.state) {
      FinishedStays(env, settings, middle, late);
    } else {
      ClaimsAreBounded(env, settings, middle, late, Horizon(Beats(env, settings, start, early), deadline));
    }
  }

  lemma ClaimsAreBounded(env: Env, settings: Settings, service: Service, turns: seq<Turn>, horizon: Time)
    requires Orderly(env, service, horizon)
    requires PastDeadline(turns, service.store.run.hardDeadlineAt)
    ensures var beats := Beats(env, settings, service, turns);
            IsTerminal(PlayAll(env, settings, service, turns).store.run.state)
            || ClaimCount(beats) <= Max(1, settings.maxAttempts) + 3 + RequestCount(beats)
  {
    PlayAllKeeps(env, settings, service, turns, horizon);
    BudgetIsBounded(env, settings, service);
    if !IsTerminal(PlayAll(env, settings, service, turns).store.run.state) {
      ClaimsSpend(env, settings, service, turns, horizon);
      BudgetIsBounded(env, settings, PlayAll(env, settings, service, turns));
    }
  }

  // ---------------------------------------------------------------- how long it takes

  /** A worker whose ticks, but for those that go elsewhere, take an earliest due job whenever there is one. */
  ghost predicate Attentive(env: Env, settings: Settings, service: Service, turns: seq<Turn>) {
    forall k | 0 <= k < |turns| && turns[k].Tick? ::
      var before := PlayAll(env, settings, service, turns[..k]);
      (exists id :: EarliestDue(before.queue, id, turns[k].input.now)) ==> Takes(before, turns[k])
  }

  /** No tick comes more than `interval` after the one before it, nor the first more than that after `start`. */
  predicate Polls(beats: seq<Beat>, start: Time, interval: nat) {
    forall k | 0 <= k < |beats| && beats[k].ticks :: beats[k].now <= LastTick(beats[..k], start) + interval
  }

  /** Every tick claims a job, goes elsewhere, or comes before the horizon. */
  predicate ClaimsByTheHorizon(beats: seq<Beat>, start: Time) {
    forall k | 0 <= k < |beats| && beats[k].ticks ::
      beats[k].claims || beats[k].elsewhere || beats[k].now < Horizon(beats[..k], start)
  }

  /** One backoff and one interval for each claim. */
  function EndBy(start: Time, claims: nat, interval: nat): Time {
    if claims == 0 then start else EndBy(start, claims - 1, interval) + LONGEST_BACKOFF + interval
  }

  lemma {:induction false} EndByIs(start: Time, claims: nat, interval: nat)
    ensures EndBy(start, claims, interval) == start + claims * (LONGEST_BACKOFF + interval)
  {
    if claims > 0 {
      EndByIs(start, claims - 1, interval);
    }
  }

  lemma {:induction false} MoreClaimsEndLater(start: Time, fewer: nat, more: nat, interval: nat)
    requires fewer <= more
    ensures EndBy(start, fewer, interval) <= EndBy(start, more, interval)
    decreases more
  {
    if fewer < more {
      MoreClaimsEndLater(start, fewer, more - 1, interval);
    }
  }

  lemma OneMoreBeat(
    beat: Beat, last: Time, horizon: Time, claims: nat, elsewhere: nat, start: Time, interval: nat)
    requires last <= horizon <= EndBy(start, claims, interval) + elsewhere * interval
    requires beat.ticks ==> beat.now <= last + interval && (beat.claims || beat.elsewhere || beat.now < horizon)
    requires beat.claims || beat.elsewhere ==> beat.ticks
    ensures (if beat.ticks then beat.now else last) <= HorizonAfter(beat, horizon)
    ensures HorizonAfter(beat, horizon)
         <= EndBy(start, claims + (if beat.claims then 1 else 0), interval)
            + (elsewhere + if beat.elsewhere then 1 else 0) * interval
  {
    assert (elsewhere + 1) * interval == elsewhere * interval + interval;
  }

  /**
   * If no tick passes the horizon without a claim, claims follow each other within a backoff and an interval,
   * and one more interval for each tick that goes elsewhere.
   */
  lemma {:induction false} ClaimsKeepComing(beats: seq<Beat>, start: Time, interval: nat)
    requires ClaimsByTheHorizon(beats, start) && Polls(beats, start, interval)
    requires forall k | 0 <= k < |beats| && (beats[k].claims || beats[k].elsewhere) :: beats[k].ticks
    ensures LastTick(beats, start) <= Horizon(beats, start)
                                   <= EndBy(start, ClaimCount(beats), interval) + ElsewhereCount(beats) * interval
    decreases |beats|
  {
    if beats != [] {
      var n := |beats| - 1;
      assert forall k | 0 <= k < n :: beats[..n][..k] == beats[..k];
      ClaimsKeepComing(beats[..n], start, interval);
      OneMoreBeat(beats[n], LastTick(beats[..n], start), Horizon(beats[..n], start), ClaimCount(beats[..n]),
                  ElsewhereCount(beats[..n]), start, interval);
    }
  }

  lemma {:induction false} PlayAllConcat(env: Env, settings: Settings, service: Service, first: seq<Turn>, rest: seq<Turn>)
    ensures PlayAll(env, settings, service, first + rest)
         == PlayAll(env, settings, PlayAll(env, settings, service, first), rest)
    decreases |rest|
  {
    if rest == [] {
      assert first + rest == first;
    } else {
      var n := |rest| - 1;
      assert (first + rest)[..|first + rest| - 1] == first + rest[..n];
      PlayAllConcat(env, settings, service, first, rest[..n]);
    }
  }

  /** A run that is open at the end was open all along. */
  lemma OpenThroughout(env: Env, settings: Settings, service: Service, first: seq<Turn>, rest: seq<Turn>)
    requires ServiceInvariant(env, PlayAll(env, settings, service, first))
    requires !IsTerminal(PlayAll(env, settings, service, first + rest).store.run.state)
    ensures !IsTerminal(PlayAll(env, settings, service, first).store.run.state)
  {
    PlayAllConcat(env, settings, service, first, rest);
    var middle := PlayAll(env, settings, service, first);
    if IsTerminal(middle.store.run.state) {
      FinishedStays(env, settings, middle, rest);
    }
  }

  /** An attentive tick past the deadline and the longest backoff after the last claim claims a job. */
  lemma AttentiveTickClaims(env: Env, service: Service, turn: Turn, horizon: Time)
    requires Orderly(env, service, horizon) && !IsTerminal(service.store.run.state)
    requires turn.Tick? && turn.input.now >= service.store.run.hardDeadlineAt && turn.input.now >= horizon
    requires (exists id :: EarliestDue(service.queue, id, turn.input.now)) ==> Takes(service, turn)
    ensures Takes(service, turn)
  {
    SomethingIsDue(env, service, turn.input.now);
  }

  /** So while a run stays open, an attentive worker's ticks claim a job or come before the horizon. */
  lemma AttentiveTickAt(env: Env, settings: Settings, service: Service, turns: seq<Turn>, horizon: Time, k: nat)
    requires Orderly(env, service, horizon)
    requires PastDeadline(turns, service.store.run.hardDeadlineAt)
    requires Attentive(env, settings, service, turns)
    requires !IsTerminal(PlayAll(env, settings, service, turns).store.run.state)
    requires k < |turns| && turns[k].Tick?
    ensures Takes(PlayAll(env, settings, service, turns[..k]), turns[k])
            || turns[k].input.now < Horizon(Beats(env, settings, service, turns[..k]), horizon)
  {
    var before, reached := PlayAll(env, settings, service, turns[..k]), Horizon(Beats(env, settings, service, turns[..k]), horizon);
    PlayAllKeeps(env, settings, service, turns[..k], horizon);
    assert turns == turns[..k] + turns[k..];
    OpenThroughout(env, settings, service, turns[..k], turns[k..]);
    if turns[k].input.now >= reached {
      AttentiveTickClaims(env, before, turns[k], reached);
    }
  }

  lemma AttentiveTicksClaim(env: Env, settings: Settings, service: Service, turns: seq<Turn>, horizon: Time)
    requires Orderly(env, service, horizon)
    requires PastDeadline(turns, service.store.run.hardDeadlineAt)
    requires Attentive(env, settings, service, turns)
    requires !IsTerminal(PlayAll(env, settings, service, turns).store.run.state)
    ensures ClaimsByTheHorizon(Beats(env, settings, service, turns), horizon)
  {
    var beats := Beats(env, settings, service, turns);
    forall k | 0 <= k < |beats| && beats[k].ticks
      ensures beats[k].claims || beats[k].elsewhere || beats[k].now < Horizon(beats[..k], horizon)
    {
      BeatsPrefix(env, settings, service, turns, k);
      if turns[k].Tick? {
        AttentiveTickAt(env, settings, service, turns, horizon, k);
      }
    }
  }

  lemma OnlyTicksClaim(env: Env, settings: Settings, service: Service, turns: seq<Turn>)
    ensures var beats := Beats(env, settings, service, turns);
            forall k | 0 <= k < |beats| && (beats[k].claims || beats[k].elsewhere) :: beats[k].ticks
  {
    var beats := Beats(env, settings, service, turns);
    forall k | 0 <= k < |beats| && (beats[k].claims || beats[k].elsewhere) ensures beats[k].ticks {
      BeatsPrefix(env, settings, service, turns, k);
    }
  }

  lemma PollingEndsTheRun(
    env: Env, settings: Settings, service: Service, turns: seq<Turn>, horizon: Time, deadline: Time, interval: nat)
    requires ServiceInvariant(env, service)
    requires IsTerminal(service.store.run.state)
             || (Orderly(env, service, horizon) && service.store.run.hardDeadlineAt == deadline)
    requires PastDeadline(turns, deadline) && Attentive(env, settings, service, turns)
    requires var beats := Beats(env, settings, service, turns);
             && Polls(beats, horizon, interval)
             && LastTick(beats, horizon)
                  > EndBy(horizon, Max(1, settings.maxAttempts) + 3 + RequestCount(beats), interval)
                    + ElsewhereCount(beats) * interval
    ensures IsTerminal(PlayAll(env, settings, service, turns).store.run.state)
  {
    if IsTerminal(service.store.run.state) {
      FinishedStays(env, settings, service, turns);
    } else {
      var claims := Max(1, settings.maxAttempts) + 3 + RequestCount(Beats(env, settings, service, turns));
      PollingEndsAnOpenRun(env, settings, service, turns, horizon, claims, interval);
    }
  }

  lemma PollingEndsAnOpenRun(
    env: Env, settings: Settings, service: Service, turns: seq<Turn>, horizon: Time, claims: nat, interval: nat)
    requires Orderly(env, service, horizon)
    requires PastDeadline(turns, service.store.run.hardDeadlineAt) && Attentive(env, settings, service, turns)
    requires var beats := Beats(env, settings, service, turns);
             && Polls(beats, horizon, interval)
             && claims >= Max(1, settings.maxAttempts) + 3 + RequestCount(beats)
             && LastTick(beats, horizon) > EndBy(horizon, claims, interval) + ElsewhereCount(beats) * interval
    ensures IsTerminal(PlayAll(env, settings, service, turns).store.run.state)
  {
    if !IsTerminal(PlayAll(env, settings, service, turns).store.run.state) {
      ClaimsAreBounded(env, settings, service, turns, horizon);
      OpenRunsAreClaimed(env, settings, service, turns, horizon, claims, interval);
    }
  }

  lemma OpenRunsAreClaimed(
    env: Env, settings: Settings, service: Service, turns: seq<Turn>, horizon: Time, claims: nat, interval: nat)
    requires Orderly(env, service, horizon)
    requires PastDeadline(turns, service.store.run.hardDeadlineAt) && Attentive(env, settings, service, turns)
    requires !IsTerminal(PlayAll(env, settings, service, turns).store.run.state)
    requires var beats := Beats(env, settings, service, turns);
             && Polls(beats, horizon, interval)
             && LastTick(beats, horizon) > EndBy(horizon, claims, interval) + ElsewhereCount(beats) * interval
    ensures ClaimCount(Beats(env, settings, service, turns)) > claims
  {
    AttentiveTicksClaim(env, settings, service, turns, horizon);
    OnlyTicksClaim(env, settings, service, turns);
    PollingMeansClaiming(Beats(env, settings, service, turns), horizon, claims, interval);
  }

  /** Whoever polls beyond the time for so many claims has made more. */
  lemma PollingMeansClaiming(beats: seq<Beat>, start: Time, claims: nat, interval: nat)
    requires ClaimsByTheHorizon(beats, start) && Polls(beats, start, interval)
    requires forall k | 0 <= k < |beats| && (beats[k].claims || beats[k].elsewhere) :: beats[k].ticks
    requires LastTick(beats, start) > EndBy(start, claims, interval) + ElsewhereCount(beats) * interval
    ensures ClaimCount(beats) > claims
  {
    ClaimsKeepComing(beats, start, interval);
    if ClaimCount(beats) <= claims {
      MoreClaimsEndLater(start, ClaimCount(beats), claims, interval);
    }
  }

  /**
   * Every run ends in time, at any polling interval: if the worker polls at least every `interval` from the
   * hard deadline on (or from the end of the last backoff, if that is later), the run is over once it has
   * polled beyond one backoff and one interval for each permitted attempt, for each completion request that
   * arrived meanwhile, and for three more, and one interval for each tick that served another run. `middle`
   * and `horizon` are where everything before has led.
   */
  lemma EveryRunEndsInTime(
    env: Env, settings: Settings, request: CreateRequest, pack: Pack, now: Time, early: seq<Turn>, late: seq<Turn>,
    middle: Service, horizon: Time, interval: nat)
    requires CreateRun(request, pack, now).Ok?
    requires var start := Opened(CreateRun(request, pack, now).value);
             && middle == PlayAll(env, settings, start, early)
             && horizon == Horizon(Beats(env, settings, start, early), start.store.run.hardDeadlineAt)
             && PastDeadline(late, start.store.run.hardDeadlineAt)
    requires Attentive(env, settings, middle, late)
    requires var beats := Beats(env, settings, middle, late);
             && Polls(beats, horizon, interval)
             && LastTick(beats, horizon)
                  > EndBy(horizon, Max(1, settings.maxAttempts) + 3 + RequestCount(beats), interval)
                    + ElsewhereCount(beats) * interval
    ensures IsTerminal(PlayAll(env, settings, middle, late).store.run.state)
  {
    var start := Opened(CreateRun(request, pack, now).value);
    OpenedIsOrderly(env, request, pack, now);
    PlayAllKeeps(env, settings, start, early, start.store.run.hardDeadlineAt);
    PollingEndsTheRun(env, settings, middle, late, horizon, start.store.run.hardDeadlineAt, interval);
  }

  lemma {:induction false} FinishedStays(env: Env, settings: Settings, service: Service, turns: seq<Turn>)
    requires ServiceInvariant(env, service) && IsTerminal(service.store.run.state)
    ensures var service' := PlayAll(env, settings, service, turns);
            ServiceInvariant(env, service') && IsTerminal(service'.store.run.state)
    decreases |turns|
  {
    if turns != [] {
      FinishedStays(env, settings, service, turns[..|turns| - 1]);
      PlayKeeps(env, settings, PlayAll(env, settings, service, turns[..|turns| - 1]), turns[|turns| - 1], 0);
    }
  }

  // ---------------------------------------------------------------- why no fault may fall before an enqueue

  /** What a fault between writing Evaluating and enqueueing the evaluation leaves behind, cancelled or not. */
  ghost predicate Orphaned(service: Service) {
    && (service.store.run.state == Evaluating || service.store.run.state == Cancelled)
    && service.store.bundle.Some?
    && forall id: nat :: !LiveAt(service.queue, EvaluateJob, id)
  }

  lemma OthersStayDead(queue: seq<Job>, kind: JobKind, at: Time)
    requires kind != EvaluateJob && forall id: nat :: !LiveAt(queue, EvaluateJob, id)
    ensures forall id: nat :: !LiveAt(Enqueue(queue, kind, at), EvaluateJob, id)
  {
    forall id: nat ensures !LiveAt(Enqueue(queue, kind, at), EvaluateJob, id) {
      assert id < |queue| ==> !LiveAt(queue, EvaluateJob, id);
    }
  }

  lemma OrphanedTick(env: Env, settings: Settings, service: Service, id: nat, input: Input)
    requires Orphaned(service) && EarliestDue(service.queue, id, input.now)
    ensures Orphaned(Poll(env, settings, service, id, input))
    ensures Poll(env, settings, service, id, input).store == service.store
  {
    var kind := service.queue[id].kind;
    assert kind == EvaluateJob ==> LiveAt(service.queue, EvaluateJob, id);
    var queue' := Poll(env, settings, service, id, input).queue;
    forall i: nat ensures !LiveAt(queue', EvaluateJob, i) {
      assert !LiveAt(service.queue, EvaluateJob, i);
    }
  }

  lemma OrphanedMove(settings: Settings, service: Service, move: Move)
    requires Orphaned(service) && IsExternal(move)
    ensures Orphaned(External(settings, service, move))
    ensures External(settings, service, move).store.run.state == Cancelled <==>
              service.store.run.state == Cancelled || move.CancelRequested?
  {
    if move.CompletionRequested? {
      OthersStayDead(service.queue, FinalizeJob, SettleTime(service.store.run, move.now));
    }
  }

  predicate Cancels(turn: Turn) {
    turn.Outside? && turn.move.CancelRequested?
  }

  /**
   * Repeating finalization does not repair the loss: whatever the worker, telemetry and requests do, such
   * a run is never completed and never failed, and it ends if and only if someone cancels it.
   */
  lemma {:induction false} LostEvaluationIsNotRepaired(env: Env, settings: Settings, service: Service, turns: seq<Turn>)
    requires Orphaned(service) && service.store.run.state == Evaluating
    ensures Orphaned(PlayAll(env, settings, service, turns))
    ensures PlayAll(env, settings, service, turns).store.run.state == Cancelled <==> exists turn | turn in turns :: Cancels(turn)
    decreases |turns|
  {
    if turns != [] {
      var n := |turns| - 1;
      var before := PlayAll(env, settings, service, turns[..n]);
      LostEvaluationIsNotRepaired(env, settings, service, turns[..n]);
      assert forall turn :: turn in turns <==> turn in turns[..n] || turn == turns[n];
      var cancelledBefore := exists turn | turn in turns[..n] :: Cancels(turn);
      assert (exists turn | turn in turns :: Cancels(turn)) <==> (cancelledBefore || Cancels(turns[n]));
      match turns[n]
      case Tick(id, input) =>
        if EarliestDue(before.queue, id, input.now) {
          OrphanedTick(env, settings, before, id, input);
        }
      case Elsewhere(_) =>
      case Outside(move) =>
        if IsExternal(move) {
          OrphanedMove(settings, before, move);
        }
    }
  }

  /** Such a loss can happen to any run that is ready to be finalized: the fault falls after the last write of the row. */
  lemma FaultBeforeEnqueueOrphans(env: Env, service: Service, now: Time)
    requires Quiet(env, service)
    requires service.store.run.state == Settling && !StillSettling(service.store.run, now)
    ensures var orphaned := service.(store := FinalizeRun(env, service.store, now).0);
            Orphaned(orphaned) && orphaned.store.run.state == Evaluating
  {
    FinalizeMoves(env, service, now);
    if service.store.bundle.Some? {
      FinalizingIsFrozen(env, service.store);
    }
    assert forall id: nat :: !LiveAt(service.queue, EvaluateJob, id);
  }

  /** What the analogous fault in a completion leaves behind: a settling run that nothing will finalize. */
  ghost predicate Unscheduled(service: Service) {
    && service.store.run.state == Settling && service.store.bundle.None? && service.store.summary.None?
    && forall id: nat :: !LiveAt(service.queue, FinalizeJob, id) && !LiveAt(service.queue, EvaluateJob, id)
  }

  lemma FaultAfterCompletionUnschedules(env: Env, service: Service, request: CompletionRequest, now: Time)
    requires ServiceInvariant(env, service) && Unsettled(service.store.run)
    ensures Unscheduled(service.(store := CompleteRun(service.store, request, now).0))
  {
    CompleteMoves(env, service, request, now);
    if service.store.bundle.Some? {
      FinalizingIsFrozen(env, service.store);
    }
    assert forall id: nat :: !LiveAt(service.queue, FinalizeJob, id) && !LiveAt(service.queue, EvaluateJob, id);
  }

  /** A turn that schedules the finalization after all, or makes it unnecessary. */
  predicate Repairs(service: Service, turn: Turn) {
    turn.Outside? &&
    match turn.move
    case BatchReconciled(_) => true
    case CancelRequested(_) => true
    case CompletionRequested(request, now) => Completion(service.store.run, request, now).Ok?
    case _ => false
  }

  lemma UnscheduledTick(env: Env, settings: Settings, service: Service, id: nat, input: Input)
    requires Unscheduled(service) && EarliestDue(service.queue, id, input.now)
    ensures Unscheduled(Poll(env, settings, service, id, input))
  {
    var kind := service.queue[id].kind;
    assert kind == EvaluateJob ==> LiveAt(service.queue, EvaluateJob, id);
    assert kind == FinalizeJob ==> LiveAt(service.queue, FinalizeJob, id);
    var queue' := Poll(env, settings, service, id, input).queue;
    forall i: nat ensures !LiveAt(queue', EvaluateJob, i) && !LiveAt(queue', FinalizeJob, i) {
      assert !LiveAt(service.queue, EvaluateJob, i) && !LiveAt(service.queue, FinalizeJob, i);
    }
  }

  lemma EnqueuedIsLive(queue: seq<Job>, kind: JobKind, at: Time)
    ensures exists id: nat :: LiveAt(Enqueue(queue, kind, at), kind, id)
  {
    match FindLive(queue, kind)
    case None => assert LiveAt(Enqueue(queue, kind, at), kind, |queue|);
    case Some(id) => assert LiveAt(Enqueue(queue, kind, at), kind, id);
  }

  /**
   * Unlike a lost evaluation, a lost finalization is repaired, but not by the worker: the run stays as it is
   * until telemetry is reconciled with it, a matching completion is repeated, or it is cancelled.
   */
  lemma LostFinalizationIsRepairedIff(env: Env, settings: Settings, service: Service, turn: Turn)
    requires StoreInvariant(env, service.store) && Unscheduled(service)
    ensures Unscheduled(Play(env, settings, service, turn)) <==> !Repairs(service, turn)
  {
    match turn
    case Tick(id, input) =>
      if EarliestDue(service.queue, id, input.now) {
        UnscheduledTick(env, settings, service, id, input);
      }
    case Elsewhere(_) =>
    case Outside(move) =>
      match move
      case BatchReconciled(batch) =>
        ReconciledStore(env, service.store, batch, settings.settleSeconds);
        var run := ReconcileRun(service.store, batch, settings.settleSeconds).0.run;
        EnqueuedIsLive(service.queue, FinalizeJob, SettleTime(run, batch.latestReceivedAt));
      case CompletionRequested(request, now) =>
        if Completion(service.store.run, request, now).Ok? {
          var run := CompleteRun(service.store, request, now).0.run;
          EnqueuedIsLive(service.queue, FinalizeJob, SettleTime(run, now));
        }
      case _ =>
  }
}
