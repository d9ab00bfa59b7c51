/** The worker that claims due jobs, dispatches them to the use cases and records what came of them. */
module Worker {
  import opened Wrappers
  import opened Evidence
  import opened RunDomain
  import opened RunStore
  import opened RunProtocol
  import opened UseCases
  import opened JobQueue

  /** The rows of one run together with its jobs. */
  datatype Service = Service(store: Store, queue: seq<Job>)

  datatype Settings = Settings(
    maxAttempts: nat, leaseSeconds: nat, idleSeconds: nat, maxRunSeconds: nat, settleSeconds: nat)

  datatype Outcome = Finished | Rescheduled | Refused

  function IdleSeconds(settings: Settings): nat {
    Clamp(settings.idleSeconds, 1, Max(1, settings.maxRunSeconds))
  }

  function Power(base: nat, exponent: nat): nat {
    if exponent == 0 then 1 else base * Power(base, exponent - 1)
  }

  function BackoffSeconds(attempts: nat): nat {
    Power(2, Min(attempts, 8))
  }

  // ---------------------------------------------------------------- use cases with the jobs they schedule

  function SettleTime(run: Run, now: Time): Time {
    if run.settleUntil.Some? then run.settleUntil.value else now
  }

  /** A created run and its timeout job are stored together. */
  function Opened(store: Store): Service {
    Service(store, [Job(TimeoutJob, Pending, 0, store.run.hardDeadlineAt)])
  }

  function CompleteWithJob(service: Service, request: CompletionRequest, now: Time): (Service, bool) {
    var (store, ok) := CompleteRun(service.store, request, now);
    if ok then (Service(store, Enqueue(service.queue, FinalizeJob, SettleTime(store.run, now))), true)
    else (service, false)
  }

  function ReconcileWithJob(settings: Settings, service: Service, batch: Batch): Service {
    var (store, ok) := ReconcileRun(service.store, batch, settings.settleSeconds);
    var now := batch.latestReceivedAt;
    if ok && store.run.state == Settling then
      Service(store, Enqueue(service.queue, FinalizeJob, SettleTime(store.run, now)))
    else if ok && store.run.state == Collecting then
      Service(store, Enqueue(service.queue, IdleJob, now + IdleSeconds(settings)))
    else Service(store, service.queue)
  }

  /** Only the finalization that moves the run to Evaluating schedules its evaluation. */
  function FinalizeWithJob(env: Env, service: Service, now: Time): (Service, bool) {
    var (store, ok) := FinalizeRun(env, service.store, now);
    if ok && store.run.state != service.store.run.state
    then (Service(store, Enqueue(service.queue, EvaluateJob, now)), true)
    else (Service(store, service.queue), ok)
  }

  // ---------------------------------------------------------------- dispatching one claimed job

  predicate Unsettled(run: Run) {
    run.state == Created || run.state == Collecting
  }

  function ProcessTimeout(service: Service, reason: CompletionReason, now: Time): (Service, Outcome) {
    if !Unsettled(service.store.run) then (service, Finished)
    else
      var (service', ok) := CompleteWithJob(service, CompletionRequest(reason, Some("timed_out"), 0), now);
      (service', if ok then Finished else Refused)
  }

  function IdleDeadline(settings: Settings, run: Run): Time {
    (if run.lastSeenAt.Some? then run.lastSeenAt.value else run.pins.createdAt) + IdleSeconds(settings)
  }

  function ProcessIdleTimeout(settings: Settings, service: Service, id: nat, attempt: nat, now: Time): (Service, Outcome) {
    var run := service.store.run;
    if !Unsettled(run) then (service, Finished)
    else if IdleDeadline(settings, run) <= now then ProcessTimeout(service, IdleTimeout, now)
    else (service.(queue := RescheduleJob(service.queue, id, attempt, IdleDeadline(settings, run))), Rescheduled)
  }

  function Dispatch(env: Env, settings: Settings, service: Service, kind: JobKind, id: nat, attempt: nat, input: Input)
    : (Service, Outcome)
  {
    match kind
    case TimeoutJob => ProcessTimeout(service, MaxDuration, input.now)
    case IdleJob => ProcessIdleTimeout(settings, service, id, attempt, input.now)
    case FinalizeJob =>
      var (service', ok) := FinalizeWithJob(env, service, input.now);
      (service', if ok then Finished else Refused)
    case EvaluateJob =>
      var (store, ok) := EvaluateRun(env, service.store, input);
      (service.(store := store), if ok then Finished else Refused)
  }

  /** Records the outcome under the lease; the last permitted failure also fails the run. */
  function Record(settings: Settings, service: Service, id: nat, attempt: nat, outcome: Outcome, now: Time): Service {
    match outcome
    case Finished => service.(queue := FinishJob(service.queue, id, attempt))
    case Rescheduled => service
    case Refused =>
      var final := attempt >= settings.maxAttempts;
      var queue := FailJob(service.queue, id, attempt, now + BackoffSeconds(attempt), final);
      Service(if final && Holds(service.queue, id, attempt) then MarkRunFailed(service.store, now) else service.store,
              queue)
  }

  /** One tick of the worker that claims the job `id`. */
  function Poll(env: Env, settings: Settings, service: Service, id: nat, input: Input): Service
    requires id < |service.queue|
  {
    var claimed := service.(queue := ClaimJob(service.queue, id, input.now, settings.leaseSeconds));
    var job := claimed.queue[id];
    var (dispatched, outcome) := Dispatch(env, settings, claimed, job.kind, id, job.attempts, input);
    Record(settings, dispatched, id, job.attempts, outcome, input.now)
  }
}
