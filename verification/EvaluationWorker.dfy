/** The worker process itself, as it changes job and run rows step by step. */
module EvaluationWorkers {
  import opened Wrappers
  import opened Evidence
  import Evaluator
  import opened RunDomain
  import opened RunStore
  import opened RunProtocol
  import opened UseCases
  import opened JobQueue
  import opened Worker
  import opened WorkerSafety
  import opened WorkerProgress

  /** A job as its claimant sees it. */
  datatype ClaimedJob = ClaimedJob(id: nat, kind: JobKind, attempts: nat)

  class EvaluationWorker {
    const env: Env
    const settings: Settings
    var store: Store
    var queue: seq<Job>

    function Rows(): Service
      reads this
    {
      Service(store, queue)
    }

    constructor (env: Env, settings: Settings, store: Store, queue: seq<Job>)
      ensures this.env == env && this.settings == settings && Rows() == Service(store, queue)
    {
      this.env, this.settings, this.store, this.queue := env, settings, store, queue;
    }

    /** Looks for a due job that no other due job precedes. */
    method FindDue(now: Time) returns (found: Option<nat>)
      ensures found.Some? ==> EarliestDue(queue, found.value, now)
      ensures found.None? ==> forall i | 0 <= i < |queue| :: !Due(queue[i], now)
    {
      found := None;
      for i := 0 to |queue|
        invariant found.None? ==> forall j | 0 <= j < i :: !Due(queue[j], now)
        invariant found.Some? ==>
          && found.value < i
          && Due(queue[found.value], now)
          && forall j | 0 <= j < i && Due(queue[j], now) :: queue[found.value].availableAt <= queue[j].availableAt
      {
        if Due(queue[i], now) && (found.None? || queue[i].availableAt < queue[found.value].availableAt) {
          found := Some(i);
        }
      }
    }

    method ClaimDue(now: Time) returns (claimed: Option<ClaimedJob>)
      modifies this`queue
      ensures claimed.None? ==> queue == old(queue) && forall i | 0 <= i < |queue| :: !Due(queue[i], now)
      ensures claimed.Some? ==>
        var ClaimedJob(id, kind, attempts) := claimed.value;
        && EarliestDue(old(queue), id, now)
        && queue == ClaimJob(old(queue), id, now, settings.leaseSeconds)
        && queue[id].kind == kind && queue[id].attempts == attempts
    {
      var found := FindDue(now);
      if found.None? {
        return None;
      }
      var id := found.value;
      queue := ClaimJob(queue, id, now, settings.leaseSeconds);
      return Some(ClaimedJob(id, queue[id].kind, queue[id].attempts));
    }

    method CompleteRunNow(request: CompletionRequest, now: Time) returns (ok: bool)
      modifies this
      ensures (Rows(), ok) == CompleteWithJob(old(Rows()), request, now)
    {
      var run := new EvaluationRun(store.run);
      var settled := run.BeginSettling(
        request.reason, request.terminalState, now + Min(request.settleSeconds, 300), now);
      if settled.Err? {
        return false;
      }
      store := WriteRow(store, run.Record());
      queue := Enqueue(queue, FinalizeJob, SettleTime(run.Record(), now));
      return true;
    }

    method ProcessTimeoutJob(reason: CompletionReason, now: Time) returns (outcome: Outcome)
      modifies this
      ensures (Rows(), outcome) == ProcessTimeout(old(Rows()), reason, now)
    {
      if store.run.state != Created && store.run.state != Collecting {
        return Finished;
      }
      var ok := CompleteRunNow(CompletionRequest(reason, Some("timed_out"), 0), now);
      return if ok then Finished else Refused;
    }

    method ProcessIdleTimeoutJob(job: ClaimedJob, now: Time) returns (outcome: Outcome)
      modifies this
      ensures (Rows(), outcome) == ProcessIdleTimeout(settings, old(Rows()), job.id, job.attempts, now)
    {
      if store.run.state != Created && store.run.state != Collecting {
        return Finished;
      }
      var deadline := IdleDeadline(settings, store.run);
      if deadline <= now {
        outcome := ProcessTimeoutJob(IdleTimeout, now);
        return;
      }
      queue := RescheduleJob(queue, job.id, job.attempts, deadline);
      return Rescheduled;
    }

    /** The evidence is stored already: the row catches up with it. */
    method RecoverNow(bundle: EvidenceBundle, now: Time)
      requires store.bundle == Some(bundle) && store.run.state == Finalizing
      modifies this
      ensures (Rows(), true) == FinalizeWithJob(env, old(Rows()), now)
    {
      var run := new EvaluationRun(store.run);
      run.AssignEvidence(bundle, bundle.finalizedAt);
      var moved := run.TransitionTo(Evaluating, now);
      store := WriteRow(store, run.Record());
      queue := Enqueue(queue, EvaluateJob, now);
    }

    /** Seals the assigned spans of a claimed run and moves it on. */
    method SealNow(run: EvaluationRun, now: Time)
      requires run.Record() == store.run && run.state == Finalizing
      modifies this`store, run
      ensures store == Sealed(env, old(store), now)
    {
      var spans := Assigned(store.spans);
      var bundle := Seal(env, run.pins, run.completionReason, run.terminalState, spans, Some(now));
      store := store.(bundle := Some(bundle));
      run.spanCount := |spans|;
      run.AssignEvidence(bundle, Some(now));
      var moved := run.TransitionTo(Evaluating, now);
      store := WriteRow(store, run.Record());
    }

    method FinalizeRunNow(now: Time) returns (ok: bool)
      modifies this
      ensures (Rows(), ok) == FinalizeWithJob(env, old(Rows()), now)
    {
      if store.bundle.Some? {
        if store.run.state == Finalizing {
          RecoverNow(store.bundle.value, now);
        }
        return true;
      }
      var run := new EvaluationRun(store.run);
      if run.state == Settling {
        if run.settleUntil.Some? && run.settleUntil.value > now {
          return false;
        }
        var moved := run.TransitionTo(Finalizing, now);
        store := WriteRow(store, run.Record());
      } else if run.state != Finalizing {
        return false;
      }
      SealNow(run, now);
      queue := Enqueue(queue, EvaluateJob, now);
      return true;
    }

    /** Writes the verdict and completes the run, if its state permits. */
    method ShowVerdictNow(summary: Summary, now: Time) returns (ok: bool)
      modifies this`store
      ensures (store, ok) == ShowVerdict(old(store), summary, now)
    {
      var run := new EvaluationRun(store.run);
      run.verdict := Some(summary.evaluation.verdict);
      var moved := run.TransitionTo(Completed, now);
      if moved.Err? {
        return false;
      }
      store := WriteRow(store, run.Record());
      return true;
    }

    method EvaluateRunNow(input: Input) returns (ok: bool)
      modifies this`store
      ensures (store, ok) == EvaluateRun(env, old(store), input)
    {
      if store.summary.Some? {
        if store.run.state == Evaluating {
          ok := ShowVerdictNow(store.summary.value, input.now);
        }
        return true;
      }
      if store.bundle.None? || input.pack.None? || ContentSha256(input.pack.value) != store.run.pins.policyContent {
        return false;
      }
      var selected := SelectRules(input.pack.value.rules, store.run.pins.ruleIds);
      var summary := Summary(Evaluator.EvaluatePack(selected, store.bundle.value, env.parse), input.nonce);
      var (saved, accepted) := SaveSummary(store, summary, input.now);
      store := saved;
      if !accepted {
        return false;
      }
      ok := ShowVerdictNow(summary, input.now);
    }

    method DispatchJob(job: ClaimedJob, input: Input) returns (outcome: Outcome)
      modifies this
      ensures (Rows(), outcome) == Dispatch(env, settings, old(Rows()), job.kind, job.id, job.attempts, input)
    {
      match job.kind
      case TimeoutJob =>
        outcome := ProcessTimeoutJob(MaxDuration, input.now);
      case IdleJob =>
        outcome := ProcessIdleTimeoutJob(job, input.now);
      case FinalizeJob =>
        var ok := FinalizeRunNow(input.now);
        outcome := if ok then Finished else Refused;
      case EvaluateJob =>
        var ok := EvaluateRunNow(input);
        outcome := if ok then Finished else Refused;
    }

    method MarkFailed(now: Time)
      modifies this`store
      ensures store == MarkRunFailed(old(store), now)
    {
      if IsTerminal(store.run.state) {
        return;
      }
      var run := new EvaluationRun(store.run);
      var moved := run.TransitionTo(RunFailed, now);
      if moved.Ok? {
        store := WriteRow(store, run.Record());
      }
    }

    method HandleJobResult(job: ClaimedJob, outcome: Outcome, now: Time)
      modifies this
      ensures Rows() == Record(settings, old(Rows()), job.id, job.attempts, outcome, now)
    {
      match outcome
      case Finished =>
        queue := FinishJob(queue, job.id, job.attempts);
      case Rescheduled =>
      case Refused =>
        var final := job.attempts >= settings.maxAttempts;
        var recorded := Holds(queue, job.id, job.attempts);
        queue := FailJob(queue, job.id, job.attempts, now + BackoffSeconds(job.attempts), final);
        if recorded && final {
          MarkFailed(now);
        }
    }

    /** One tick: claims an earliest due job, if any, and sees it through. */
    method Tick(input: Input) returns (job: Option<ClaimedJob>)
      modifies this
      ensures job.None? ==> Rows() == old(Rows()) && forall i | 0 <= i < |queue| :: !Due(queue[i], input.now)
      ensures job.Some? ==>
        && EarliestDue(old(queue), job.value.id, input.now)
        && Rows() == Poll(env, settings, old(Rows()), job.value.id, input)
    {
      job := ClaimDue(input.now);
      if job.Some? {
        var outcome := DispatchJob(job.value, input);
        HandleJobResult(job.value, outcome, input.now);
      }
    }

    /** A tick of an open run past its deadline spends from the budget, or finds nothing due before the horizon. */
    method ServeTick(input: Input, ghost horizon: Time) returns (claimed: bool)
      requires Orderly(env, Rows(), horizon) && input.now >= store.run.hardDeadlineAt
      requires !IsTerminal(store.run.state)
      modifies this
      ensures ServiceInvariant(env, Rows())
      ensures !claimed ==> Rows() == old(Rows()) && input.now < horizon
      ensures claimed ==>
                IsTerminal(store.run.state) ||
                (Orderly(env, Rows(), Max(horizon, input.now + LONGEST_BACKOFF))
                 && Budget(settings, Rows()) < Budget(settings, old(Rows())))
      ensures store.run.hardDeadlineAt == old(store.run.hardDeadlineAt)
    {
      ghost var before := Rows();
      var job := Tick(input);
      claimed := job.Some?;
      if claimed {
        PollSpends(env, settings, before, job.value.id, input);
      } else if input.now >= horizon {
        SomethingIsDue(env, before, input.now);
      }
    }

    /** A tick of a finished run leaves it finished. */
    method IdleTick(input: Input)
      requires ServiceInvariant(env, Rows()) && IsTerminal(store.run.state)
      modifies this
      ensures ServiceInvariant(env, Rows()) && IsTerminal(store.run.state)
    {
      ghost var before := Rows();
      var job := Tick(input);
      if job.Some? {
        PollKeeps(env, settings, before, job.value.id, input);
      }
    }

    /** The run is over, or orderly with enough of its budget left for the claims it has seen. */
    ghost predicate Going(horizon: Time, deadline: Time, budget: nat, claims: nat)
      reads this
    {
      && ServiceInvariant(env, Rows())
      && (IsTerminal(store.run.state)
          || (Orderly(env, Rows(), horizon) && store.run.hardDeadlineAt == deadline
              && Budget(settings, Rows()) + claims <= budget))
    }

    /** One round of the polling loop; `next` is when the longest backoff after the last claim is over. */
    method Round(tick: ServedTick, ghost horizon: Time, ghost deadline: Time, ghost budget: nat, claims: nat)
      returns (more: nat, ghost next: Time)
      requires Going(horizon, deadline, budget, claims) && (tick.Here? ==> tick.input.now >= deadline)
      modifies this
      ensures Going(next, deadline, budget, more)
      ensures old(IsTerminal(store.run.state)) ==> IsTerminal(store.run.state)
      ensures !IsTerminal(store.run.state) ==> Passes(tick, horizon, claims, next, more)
    {
      more, next := claims, horizon;
      match tick
      case There(now) =>
        next := Max(horizon, now);
      case Here(input) =>
        if IsTerminal(store.run.state) {
          IdleTick(input);
        } else {
          var claimed := ServeTick(input, horizon);
          if claimed {
            more, next := claims + 1, Max(horizon, input.now + LONGEST_BACKOFF);
          }
        }
    }

    /** Rounds one after the other. */
    method Rounds(ticks: seq<ServedTick>, ghost start: Time, ghost deadline: Time, ghost budget: nat, ghost interval: nat)
      returns (claims: nat, ghost horizon: Time)
      requires Going(start, deadline, budget, 0)
      requires forall k | 0 <= k < |ticks| && ticks[k].Here? :: ticks[k].input.now >= deadline
      modifies this
      ensures Going(horizon, deadline, budget, claims)
      ensures IsTerminal(store.run.state) || OnTime(ticks, start, interval, horizon, claims)
    {
      claims, horizon := 0, start;
      for i := 0 to |ticks|
        invariant Going(horizon, deadline, budget, claims)
        invariant IsTerminal(store.run.state) || OnTime(ticks[..i], start, interval, horizon, claims)
      {
        ghost var before, were := horizon, claims;
        claims, horizon := Round(ticks[i], horizon, deadline, budget, claims);
        if !IsTerminal(store.run.state) {
          OneMoreRound(ticks, i, start, interval, before, were, horizon, claims);
        }
      }
      assert ticks[..|ticks|] == ticks;
    }

    /**
     * The polling loop past the deadline, with ticks at any distance, some of them spent on other runs: enough
     * claims bring the run to its end, and so does polling long enough when no tick comes more than `interval`
     * after the one before.
     */
    method Serve(ticks: seq<ServedTick>, ghost start: Time, ghost interval: nat) returns (claims: nat)
      requires Orderly(env, Rows(), start)
      requires forall k | 0 <= k < |ticks| && ticks[k].Here? :: ticks[k].input.now >= store.run.hardDeadlineAt
      modifies this
      ensures claims >= Max(1, settings.maxAttempts) + 4 ==> IsTerminal(store.run.state)
      ensures PollsEvery(ticks, start, interval)
              && LastOf(ticks, start)
                   > EndBy(start, Max(1, settings.maxAttempts) + 3, interval) + TicksThere(ticks) * interval ==>
                IsTerminal(store.run.state)
    {
      ghost var budget, horizon := Budget(settings, Rows()), start;
      BudgetIsBounded(env, settings, Rows());
      claims, horizon := Rounds(ticks, start, store.run.hardDeadlineAt, budget, interval);
      if !IsTerminal(store.run.state) {
        BudgetIsBounded(env, settings, Rows());
        MoreClaimsEndLater(start, claims, Max(1, settings.maxAttempts) + 3, interval);
      }
    }
  }

  /** A tick that looks at the jobs of this run, or one that goes to another run's job (or whose claim fails). */
  datatype ServedTick = Here(input: Input) | There(now: Time)

  function TimeOf(tick: ServedTick): Time {
    match tick
    case Here(input) => input.now
    case There(now) => now
  }

  function TicksThere(ticks: seq<ServedTick>): nat {
    if ticks == [] then 0 else TicksThere(ticks[..|ticks| - 1]) + if ticks[|ticks| - 1].There? then 1 else 0
  }

  function LastOf(ticks: seq<ServedTick>, start: Time): Time {
    if ticks == [] then start else TimeOf(ticks[|ticks| - 1])
  }

  predicate PollsEvery(ticks: seq<ServedTick>, start: Time, interval: nat) {
    forall k | 0 <= k < |ticks| :: TimeOf(ticks[k]) <= LastOf(ticks[..k], start) + interval
  }

  /** What one round does to the claims and the horizon of an open run. */
  predicate Passes(tick: ServedTick, horizon: Time, claims: nat, next: Time, more: nat) {
    match tick
    case There(now) => more == claims && next == Max(horizon, now)
    case Here(input) =>
      || (more == claims && next == horizon && input.now < horizon)
      || (more == claims + 1 && next == Max(horizon, input.now + LONGEST_BACKOFF))
  }

  /** With ticks at most `interval` apart, neither the last tick nor the horizon outruns the claims. */
  predicate OnTime(ticks: seq<ServedTick>, start: Time, interval: nat, horizon: Time, claims: nat) {
    PollsEvery(ticks, start, interval) ==>
      LastOf(ticks, start) <= horizon <= EndBy(start, claims, interval) + TicksThere(ticks) * interval
  }

  lemma OneMoreRound(
    ticks: seq<ServedTick>, i: nat, start: Time, interval: nat, horizon: Time, claims: nat, next: Time, more: nat)
    requires i < |ticks| && OnTime(ticks[..i], start, interval, horizon, claims)
    requires Passes(ticks[i], horizon, claims, next, more)
    ensures OnTime(ticks[..i + 1], start, interval, next, more)
  {
    var now := ticks[..i + 1];
    assert now[i] == ticks[i] && now[..i] == ticks[..i];
    assert forall k | 0 <= k < i :: ticks[..i][..k] == now[..k] && ticks[..i][k] == now[k];
    if ticks[i].There? {
      assert TicksThere(now) * interval == TicksThere(ticks[..i]) * interval + interval;
    }
  }
}
