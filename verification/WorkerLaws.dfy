/** What claims, records and the use cases do to the jobs of a run: which job is due when, and why. */
module WorkerLaws {
  import opened Wrappers
  import opened Evidence
  import opened RunDomain
  import opened RunStore
  import opened RunProtocol
  import opened RunInvariant
  import opened UseCases
  import opened JobQueue
  import opened Worker
  import opened WorkerSafety

  /** The only job that is different is the one at `id`. */
  predicate OnlyJob(before: seq<Job>, after: seq<Job>, id: nat) {
    && |after| == |before| && id < |before|
    && (forall other: nat | other < |before| && other != id :: after[other] == before[other])
    && after[id].kind == before[id].kind
  }

  // ---------------------------------------------------------------- claims

  /** A lease lasts for the configured time, but at least a second and at most an hour. */
  predicate IsLeaseTime(settings: Settings, seconds: nat) {
    && (1 <= settings.leaseSeconds <= 3_600 ==> seconds == settings.leaseSeconds)
    && (settings.leaseSeconds == 0 ==> seconds == 1)
    && (settings.leaseSeconds > 3_600 ==> seconds == 3_600)
  }

  /**
   * A claimed job is running under one more attempt; if its worker vanishes it is due again exactly from the
   * end of the lease on, and the other jobs are what they were.
   */
  lemma ClaimMeaning(env: Env, settings: Settings, system: System, worker: nat, id: nat, now: Time, later: Time)
    returns (seconds: nat)
    requires worker !in system.leases && EarliestDue(system.service.queue, id, now)
    ensures IsLeaseTime(settings, seconds)
    ensures var (before, after) := (system.service, Make(env, settings, system, Claims(worker, id, now)));
            && after.service.store == before.store
            && OnlyJob(before.queue, after.service.queue, id)
            && after.service.queue[id].attempts == before.queue[id].attempts + 1
            && (Due(after.service.queue[id], later) <==> now + seconds <= later)
            && after.leases.Keys == system.leases.Keys + {worker}
            && after.leases[worker].id == id && after.leases[worker].attempt == before.queue[id].attempts + 1
  {
    seconds := Clamp(settings.leaseSeconds, 1, 3_600);
  }

  /** A waiting job is due from the time it was set for; one that was done or given up never is. */
  lemma WaitingJobIsDueIff(job: Job, now: Time)
    requires !job.status.Running?
    ensures Due(job, now) <==> job.status == Pending && job.availableAt <= now
  {
  }

  // ---------------------------------------------------------------- records

  /** How long a job waits after its attempt failed: two seconds, then twice as long each time, up to 256 seconds. */
  function RetryDelay(attempt: nat): nat {
    match attempt
    case 0 => 1
    case 1 => 2
    case 2 => 4
    case 3 => 8
    case 4 => 16
    case 5 => 32
    case 6 => 64
    case 7 => 128
    case _ => 256
  }

  lemma BackoffMeaning(attempts: nat)
    ensures BackoffSeconds(attempts) == RetryDelay(attempts)
  {
    assert Power(2, 1) == 2 && Power(2, 2) == 4 && Power(2, 3) == 8 && Power(2, 4) == 16;
    assert Power(2, 5) == 32 && Power(2, 6) == 64 && Power(2, 7) == 128 && Power(2, 8) == 256;
  }

  /**
   * What a worker records holds only under its lease: success ends the job; a failure puts it back with a
   * delay; the failure of the last permitted attempt ends the job and fails the run unless that is finished.
   */
  lemma RecordMeaning(settings: Settings, service: Service, id: nat, attempt: nat, outcome: Outcome, now: Time)
    requires outcome != Rescheduled
    ensures var after := Record(settings, service, id, attempt, outcome, now);
            if !Holds(service.queue, id, attempt) then after == service
            else
              var job := service.queue[id];
              && OnlyJob(service.queue, after.queue, id)
              && after.queue[id] ==
                   (if outcome == Finished then job.(status := JobDone)
                    else if attempt < settings.maxAttempts
                    then job.(status := Pending, availableAt := now + RetryDelay(attempt))
                    else job.(status := JobFailed, availableAt := now + RetryDelay(attempt)))
              && (outcome == Finished || attempt < settings.maxAttempts ==> after.store == service.store)
              && (outcome == Refused && attempt >= settings.maxAttempts ==>
                    after.store.run ==
                      if Rank(service.store.run.state) == 5 then service.store.run
                      else service.store.run.(state := RunFailed, updatedAt := now))
  {
    BackoffMeaning(attempt);
  }

  // ---------------------------------------------------------------- jobs that use cases schedule

  /** A live job of the kind is only ever put off; without one a new job is added. */
  ghost predicate IsScheduled(before: seq<Job>, after: seq<Job>, kind: JobKind, at: Time) {
    if forall id | 0 <= id < |before| :: !LiveAt(before, kind, id) then after == before + [Job(kind, Pending, 0, at)]
    else exists id: nat ::
      && LiveAt(before, kind, id) && OnlyJob(before, after, id)
      && after[id] == before[id].(availableAt := if before[id].availableAt >= at then before[id].availableAt else at)
  }

  lemma EnqueueMeaning(queue: seq<Job>, kind: JobKind, at: Time)
    ensures IsScheduled(queue, Enqueue(queue, kind, at), kind, at)
  {
    var found := FindLive(queue, kind);
    if found.Some? {
      assert LiveAt(queue, kind, found.value) && OnlyJob(queue, Enqueue(queue, kind, at), found.value);
    }
  }

  lemma SettlingHasATime(env: Env, store: Store, batch: Batch, settleSeconds: nat)
    requires StoreInvariant(env, store) && store.run.state != Finalizing
    ensures var (after, ok) := ReconcileRun(store, batch, settleSeconds);
            ok && (after.run.state == Settling ==> after.run.settleUntil.Some?)
  {
    ReconciledStore(env, store, batch, settleSeconds);
    var after := ReconcileRun(store, batch, settleSeconds).0;
    CurrentInHistory(env, after);
    assert SoundRun(after, after.run);
  }

  /** Reconciled telemetry schedules the finalization for the settle time, or the idle check for the idle time. */
  lemma TelemetrySchedules(env: Env, settings: Settings, service: Service, batch: Batch)
    requires ServiceInvariant(env, service)
    ensures var after := ReconcileWithJob(settings, service, batch);
            match after.store.run.state
            case Settling =>
              && after.store.run.settleUntil.Some?
              && IsScheduled(service.queue, after.queue, FinalizeJob, after.store.run.settleUntil.value)
            case Collecting =>
              IsScheduled(service.queue, after.queue, IdleJob, batch.latestReceivedAt + IdleSeconds(settings))
            case _ => after.queue == service.queue
  {
    SettlingHasATime(env, service.store, batch, settings.settleSeconds);
    var run := ReconcileRun(service.store, batch, settings.settleSeconds).0.run;
    EnqueueMeaning(service.queue, FinalizeJob, SettleTime(run, batch.latestReceivedAt));
    EnqueueMeaning(service.queue, IdleJob, batch.latestReceivedAt + IdleSeconds(settings));
  }

  /** A successful completion schedules the finalization for the settle time, an unsuccessful one nothing. */
  lemma CompletionSchedules(env: Env, service: Service, request: CompletionRequest, now: Time)
    requires ServiceInvariant(env, service)
    ensures var (after, ok) := CompleteWithJob(service, request, now);
            && (!ok ==> after == service)
            && (ok ==>
                  IsScheduled(service.queue, after.queue, FinalizeJob,
                              match after.store.run.settleUntil case Some(until) => until case None => now))
  {
    var run := CompleteRun(service.store, request, now).0.run;
    EnqueueMeaning(service.queue, FinalizeJob, SettleTime(run, now));
  }

  /** A finalization that takes the run to Evaluating schedules the evaluation at once, any other nothing. */
  lemma FinalizationSchedules(env: Env, service: Service, now: Time)
    requires ServiceInvariant(env, service)
    ensures var (after, ok) := FinalizeWithJob(env, service, now);
            && (after.store.run.state == Evaluating && service.store.run.state != Evaluating ==>
                  IsScheduled(service.queue, after.queue, EvaluateJob, now))
            && (after.store.run.state == service.store.run.state ==> after.queue == service.queue)
  {
    FinalizeMoves(env, service, now);
    EnqueueMeaning(service.queue, EvaluateJob, now);
  }

  /** A created run has one job: its timeout, due at the hard deadline. */
  lemma CreationSchedules(store: Store, now: Time)
    ensures var service := Opened(store);
            && service.store == store && |service.queue| == 1 && service.queue[0].kind == TimeoutJob
            && service.queue[0].attempts == 0
            && (Due(service.queue[0], now) <==> now >= store.run.hardDeadlineAt)
  {
  }
}
