/**
 * The use cases as they run: loading the row into an object, assigning its fields and writing it back,
 * while other processes act before every repository call. Each is a process of the protocol, whatever
 * the others do.
 */
module RunSession {
  import opened Wrappers
  import opened Evidence
  import opened Evaluator
  import opened RunDomain
  import opened RunStore
  import opened RunProtocol
  import opened RunInvariant
  import opened RunSafety

  /** Actions that do not touch the process `pid`. */
  ghost predicate Foreign(pid: nat, actions: seq<Action>) {
    forall action | action in actions :: action.Receive? || action.pid != pid
  }

  ghost predicate AllForeign(pid: nat, others: nat -> seq<Action>) {
    forall n: nat :: Foreign(pid, others(n))
  }

  /** Foreign actions neither see nor disturb a process. */
  lemma {:induction false} ForeignCommutes(env: Env, world: World, pid: nat, proc: Proc, actions: seq<Action>)
    requires pid !in world.procs && Foreign(pid, actions)
    ensures var world' := Execute(env, world, actions);
            && pid !in world'.procs
            && Execute(env, world.(procs := world.procs[pid := proc]), actions)
                 == world'.(procs := world'.procs[pid := proc])
    decreases |actions|
  {
    if actions != [] {
      var n := |actions| - 1;
      ForeignCommutes(env, world, pid, proc, actions[..n]);
      var before := Execute(env, world, actions[..n]);
      assert actions[n] in actions;
      ForeignActionCommutes(env, before, pid, proc, actions[n]);
    }
  }

  lemma ForeignActionCommutes(env: Env, world: World, pid: nat, proc: Proc, action: Action)
    requires pid !in world.procs && (action.Receive? || action.pid != pid)
    ensures var world' := Apply(env, world, action);
            && pid !in world'.procs
            && Apply(env, world.(procs := world.procs[pid := proc]), action)
                 == world'.(procs := world'.procs[pid := proc])
  {
    var procs := world.procs[pid := proc];
    match action
    case Spawn(other, started) =>
      assert procs[other := started] == world.procs[other := started][pid := proc];
    case Crash(other) =>
      assert procs - {other} == (world.procs - {other})[pid := proc];
    case Step(other, input) =>
      if other in world.procs {
        var (_, next) := Advance(env, world.store, world.procs[other], input);
        if next.Some? {
          assert procs[other := next.value] == world.procs[other := next.value][pid := proc];
        } else {
          assert procs - {other} == (world.procs - {other})[pid := proc];
        }
      }
    case Receive(_, _, _) =>
  }

  /** Some schedule from a created run leads here. */
  ghost predicate Reachable(env: Env, world: World) {
    exists initial, schedule :: Initial(initial) && world == Execute(env, initial, schedule)
  }

  lemma ReachableIsSound(env: Env, world: World)
    requires Reachable(env, world)
    ensures WorldInvariant(env, world)
  {
    var initial, schedule :| Initial(initial) && world == Execute(env, initial, schedule);
    ScheduleKeeps(env, initial, schedule);
  }

  /** The process is about to swap in `next` for `loaded`. */
  predicate Swaps(proc: Proc, input: Input, loaded: Run, next: Run) {
    Proposal(proc, input) == Some((loaded, next))
  }

  lemma SwapsByAdvancing(env: Env, store: Store, proc: Proc, input: Input, loaded: Run, next: Run)
    requires Swaps(proc, input, loaded, next)
    ensures Advance(env, store, proc, input).0 == Swap(store, loaded, next).0
    ensures loaded.pins == next.pins
    ensures ProcInvariant(env, store, proc) ==> loaded in store.history
  {
  }

  /** What other processes leave alone. */
  predicate Kept(before: Store, after: Store) {
    && |before.history| <= |after.history|
    && (before.bundle.Some? ==> after.bundle == before.bundle)
    && (before.summary.Some? ==> after.summary == before.summary)
  }

  /** What a process is about to return is stored: the bundle up to its time of finalization, or the summary. */
  predicate OutcomeStored(store: Store, proc: Proc) {
    match proc
    case FinalizeRecoverWrite(bundle, _) => store.bundle == Some(bundle)
    case FinalizeWrite(_, now, _, bundle) =>
      store.bundle.Some? && bundle == store.bundle.value.(finalizedAt := Some(now))
    case EvaluateResumeWrite(summary, _) => store.summary == Some(summary)
    case EvaluateWrite(summary, _) => store.summary == Some(summary)
    case _ => true
  }

  lemma OutcomesAreStored(env: Env, store: Store, proc: Proc)
    requires StoreInvariant(env, store) && ProcInvariant(env, store, proc)
    ensures OutcomeStored(store, proc)
  {
    if proc.FinalizeWrite? {
      SealedAlike(env, store, proc.run, proc.bundle, proc.now);
    }
  }

  /** Reconciliation of a well-formed row meets no lifecycle error. */
  lemma ReconciliationNeverFails(run: Run, batch: Batch, settleSeconds: nat)
    requires WellFormedRun(run)
    ensures Reconciled(run, batch, settleSeconds).Ok?
    ensures Rank(Reconciled(run, batch, settleSeconds).value.state) >= (if batch.terminal then 2 else 1)
  {
  }

  /** A schedule starts one process and otherwise only steps it. */
  ghost predicate OwnLog(pid: nat, first: Proc, log: seq<Action>) {
    && |log| > 0 && log[0] == Spawn(pid, first)
    && forall k | 1 <= k < |log| :: log[k].Receive? || log[k].Step? || log[k].pid != pid
  }

  lemma OwnLogContinues(pid: nat, first: Proc, log: seq<Action>, actions: seq<Action>)
    requires OwnLog(pid, first, log)
    requires forall action | action in actions :: action.Receive? || action.Step? || action.pid != pid
    ensures OwnLog(pid, first, log + actions)
  {
    var longer := log + actions;
    forall k | 1 <= k < |longer| ensures longer[k].Receive? || longer[k].Step? || longer[k].pid != pid {
      assert k >= |log| ==> longer[k] in actions;
    }
  }

  /** Continuing a schedule keeps bundle and summary, and a row whose history did not grow did not change. */
  lemma ContinuationKeeps(env: Env, start: World, log: seq<Action>, actions: seq<Action>)
    requires Reachable(env, start)
    ensures Execute(env, start, log + actions) == Execute(env, Execute(env, start, log), actions)
    ensures var before, after := Execute(env, start, log).store, Execute(env, start, log + actions).store;
            && Kept(before, after)
            && (|before.history| == |after.history| ==> before.run == after.run)
  {
    ReachableIsSound(env, start);
    ContinuationEvolves(env, start, log);
    ExecuteConcat(env, start, log, actions);
    ContinuationEvolves(env, Execute(env, start, log), actions);
    var before, after := Execute(env, start, log).store, Execute(env, start, log + actions).store;
    assert before.history == after.history[..|before.history|];
  }

  datatype Failure = Lifecycle | LostRace | TooManyChanges | Unfinished | NoEvidence | PolicyChanged | DuplicateRules

  /** One use case at work on a shared run. `proc` is where the protocol has this process; None once it has returned. */
  class Session {
    const env: Env
    const others: nat -> seq<Action>
    var world: World
    var calls: nat
    ghost const pid: nat
    ghost const start: World
    ghost const first: Proc
    ghost var log: seq<Action>
    ghost var proc: Option<Proc>

    /** The shared rows are as the logged schedule leaves them; its own actions are one start and steps. */
    ghost predicate Valid()
      reads this
    {
      && AllForeign(pid, others)
      && IsStart(first)
      && Reachable(env, start)
      && pid !in world.procs
      && OwnLog(pid, first, log)
      && Execute(env, start, log) == if proc.None? then world else world.(procs := world.procs[pid := proc.value])
    }

    constructor (env: Env, world: World, others: nat -> seq<Action>, ghost pid: nat, ghost first: Proc)
      requires Reachable(env, world)
      requires pid !in world.procs && IsStart(first) && AllForeign(pid, others)
      ensures Valid() && proc == Some(first) && this.env == env && this.first == first
      ensures this.world == world && start == world
    {
      this.env, this.world, this.others, this.calls := env, world, others, 0;
      this.pid, this.start, this.first, this.proc := pid, world, first, Some(first);
      log := [Spawn(pid, first)];
      new;
      assert log[..0] == [];
    }

    /** Other processes act; then this one is about to make its next call. */
    method Interfere()
      requires Valid() && proc.Some?
      modifies this
      ensures Valid() && proc == old(proc)
      ensures Kept(old(world.store), world.store)
      ensures |old(world.store.history)| == |world.store.history| ==> world.store.run == old(world.store.run)
    {
      var actions := others(calls);
      assert Foreign(pid, others(calls));
      ForeignCommutes(env, world, pid, proc.value, actions);
      ContinuationKeeps(env, start, log, actions);
      OwnLogContinues(pid, first, log, actions);
      world, calls, log := Execute(env, world, actions), calls + 1, log + actions;
    }

    /** Logs that the protocol took the step the code just took. */
    ghost method Took(before: Store, input: Input)
      requires proc.Some? && pid !in world.procs && AllForeign(pid, others) && IsStart(first)
      requires Reachable(env, start)
      requires OwnLog(pid, first, log)
      requires Execute(env, start, log) == World(before, world.procs[pid := proc.value])
      requires Advance(env, before, proc.value, input).0 == world.store
      modifies this`log, this`proc
      ensures Valid() && proc == Advance(env, before, old(proc.value), input).1
    {
      var step := Step(pid, input);
      assert (log + [step])[..|log + [step]| - 1] == log;
      log := log + [step];
      proc := Advance(env, before, proc.value, input).1;
      assert proc.None? ==> world.procs[pid := old(proc.value)] - {pid} == world.procs;
      assert proc.Some? ==> world.procs[pid := old(proc.value)][pid := proc.value] == world.procs[pid := proc.value];
    }

    /** Every fact about reachable worlds holds of this one. */
    lemma Sound()
      requires Valid()
      ensures StoreInvariant(env, world.store) && Evolves(start.store, world.store)
      ensures proc.Some? ==> ProcInvariant(env, world.store, proc.value)
    {
      ReachableIsSound(env, start);
      ContinuationEvolves(env, start, log);
      var reached := Execute(env, start, log);
      if proc.Some? {
        assert reached.procs[pid] == proc.value;
      }
    }

    /** The use case goes on without a repository call. */
    ghost method Continue(input: Input)
      requires Valid() && proc.Some?
      requires Advance(env, world.store, proc.value, input).0 == world.store
      modifies this`log, this`proc
      ensures Valid() && proc == Advance(env, world.store, old(proc.value), input).1
    {
      Took(world.store, input);
    }

    // -------------------------------------------------------------- repository calls

    method GetRun(ghost input: Input) returns (run: EvaluationRun)
      requires Valid() && proc.Some?
      requires forall store: Store :: Advance(env, store, proc.value, input).0 == store
      modifies this
      ensures Valid() && proc == Advance(env, world.store, old(proc.value), input).1
      ensures Kept(old(world.store), world.store)
      ensures WellFormedRun(world.store.run)
      ensures fresh(run) && run.Record() == world.store.run
    {
      Interfere();
      Sound();
      CurrentInHistory(env, world.store);
      assert SoundRun(world.store, world.store.run);
      run := new EvaluationRun(world.store.run);
      Took(world.store, input);
    }

    /** Compare-and-swap of the row. */
    method UpdateRun(run: Run, loaded: Run, ghost input: Input) returns (swapped: bool, ghost before: Store)
      requires Valid() && proc.Some? && Swaps(proc.value, input, loaded, run)
      modifies this
      ensures Valid() && proc == Advance(env, before, old(proc.value), input).1
      ensures swapped == Swap(before, loaded, run).1
      ensures swapped ==> world.store.run == run
      ensures OutcomeStored(world.store, old(proc.value))
      ensures |old(world.store.history)| <= |world.store.history|
      ensures !swapped && loaded == old(world.store.run) ==> |world.store.history| > |old(world.store.history)|
    {
      Interfere();
      before := world.store;
      Sound();
      CurrentInHistory(env, before);
      OutcomesAreStored(env, before, proc.value);
      SwapsByAdvancing(env, before, proc.value, input, loaded, run);
      var (store, ok) := Swap(world.store, loaded, run);
      world, swapped := world.(store := store), ok;
      Took(before, input);
    }

    method GetBundle(ghost input: Input) returns (bundle: Option<EvidenceBundle>)
      requires Valid() && proc.Some?
      requires forall store: Store :: Advance(env, store, proc.value, input).0 == store
      modifies this
      ensures Valid() && proc == Advance(env, world.store, old(proc.value), input).1
      ensures bundle == world.store.bundle
    {
      Interfere();
      bundle := world.store.bundle;
      Took(world.store, input);
    }

    method ListSpans(ghost input: Input) returns (spans: seq<Span>)
      requires Valid() && proc.Some? && proc.value.FinalizeList?
      modifies this
      ensures Valid() && proc == Some(FinalizeInsert(old(proc.value.run), old(proc.value.now), spans))
    {
      Interfere();
      spans := Assigned(world.store.spans);
      Took(world.store, input);
    }

    method InsertBundle(bundle: EvidenceBundle, ghost input: Input) returns (accepted: bool)
      requires Valid() && proc.Some? && proc.value.FinalizeInsert?
      requires bundle == Seal(env, proc.value.run.pins, proc.value.run.completionReason, proc.value.run.terminalState,
                              proc.value.spans, Some(proc.value.now))
      modifies this
      ensures Valid()
      ensures accepted
      ensures proc == Some(FinalizeWrite(old(proc.value.run), old(proc.value.now), |old(proc.value.spans)|, bundle))
    {
      Interfere();
      ghost var before := world.store;
      Sound();
      InsertBundleKeeps(env, world.store, proc.value.run, proc.value.now);
      var (store, ok) := RunStore.InsertBundle(world.store, bundle);
      world, accepted := world.(store := store), ok;
      Took(before, input);
    }

    method GetSummary(ghost input: Input) returns (summary: Option<Summary>)
      requires Valid() && proc == Some(EvaluateCheck)
      modifies this
      ensures Valid()
      ensures summary == world.store.summary
      ensures proc == Some(if summary.Some? then EvaluateResume(summary.value) else EvaluateRead)
    {
      Interfere();
      summary := world.store.summary;
      Took(world.store, input);
    }

    method SaveSummary(summary: Summary, input: Input) returns (accepted: bool)
      requires Valid() && proc == Some(EvaluateSave(summary))
      modifies this
      ensures Valid() && proc == if accepted then Some(EvaluateReread(summary)) else None
    {
      Interfere();
      ghost var before := world.store;
      var (store, ok) := RunStore.SaveSummary(world.store, summary, input.now);
      world, accepted := world.(store := store), ok;
      Took(before, input);
    }

    // -------------------------------------------------------------- use cases

    method CompleteEvaluationRun(request: CompletionRequest, now: Time) returns (result: Result<Run, Failure>)
      requires Valid() && proc == Some(CompleteRead(request))
      modifies this
      ensures Valid() && proc == None
      ensures result.Ok? ==> result.value == world.store.run && 2 <= Rank(result.value.state)
    {
      ghost var input := Input(now, None, 0);
      var run := GetRun(input);
      var loaded := run.Record();
      var settled := run.BeginSettling(
        request.reason, request.terminalState, now + Min(request.settleSeconds, 300), now);
      if settled.Err? {
        Continue(input);
        return Err(Lifecycle);
      }
      var swapped, before := UpdateRun(run.Record(), loaded, input);
      return if swapped then Ok(run.Record()) else Err(LostRace);
    }

    method CancelEvaluationRun(now: Time) returns (result: Result<Run, Failure>)
      requires Valid() && proc == Some(CancelRead)
      modifies this
      ensures Valid() && proc == None
      ensures result.Ok? ==> result.value == world.store.run && result.value.state == Cancelled
    {
      ghost var input := Input(now, None, 0);
      var run := GetRun(input);
      var loaded := run.Record();
      var moved := run.TransitionTo(Cancelled, now);
      if moved.Err? {
        Continue(input);
        return Err(Lifecycle);
      }
      var swapped, before := UpdateRun(run.Record(), loaded, input);
      return if swapped then Ok(run.Record()) else Err(LostRace);
    }

    /** The local part of one round: what to write, if anything. */
    method Reconcile(run: EvaluationRun, batch: Batch, settleSeconds: nat) returns (changed: Result<bool, Failure>)
      requires WellFormedRun(run.Record())
      modifies run
      ensures changed.Ok? <==> Reconciled(old(run.Record()), batch, settleSeconds).Ok?
      ensures changed.Ok? ==> Reconciled(old(run.Record()), batch, settleSeconds) == Ok(run.Record())
      ensures changed.Ok? ==> (changed.value <==> run.Record() != old(run.Record()))
    {
      var now := batch.latestReceivedAt;
      if batch.terminal && (run.state == Created || run.state == Collecting) {
        var settled := run.BeginSettling(TerminalEvent, batch.terminalState, now + settleSeconds, now);
        return if settled.Ok? then Ok(true) else Err(Lifecycle);
      } else if run.state == Created {
        var moved := run.TransitionTo(Collecting, now);
        return if moved.Ok? then Ok(true) else Err(Lifecycle);
      } else if run.state == Settling && batch.insertedAny {
        var proposed := Min(now + settleSeconds, run.hardDeadlineAt);
        var extended := if run.settleUntil.None? then proposed else Max(run.settleUntil.value, proposed);
        if run.settleUntil == Some(extended) {
          return Ok(false);
        }
        run.settleUntil := Some(extended);
        run.updatedAt := now;
        return Ok(true);
      }
      return Ok(false);
    }

    /** One attempt: the outcome, or nothing when the swap failed because the row has changed. */
    method TryReconcile(batch: Batch, settleSeconds: nat, ghost windows: seq<Window>)
      returns (outcome: Option<Run>, ghost more: seq<Window>)
      requires Valid() && proc == Some(ReconcileRead(batch, settleSeconds, windows)) && |windows| < SWAP_ATTEMPTS
      modifies this
      ensures Valid() && |old(world.store.history)| <= |world.store.history|
      ensures match outcome
              case Some(run) =>
                && proc == None && run == world.store.run && Rank(run.state) >= (if batch.terminal then 2 else 1)
              case None =>
                && |more| == |windows| + 1
                && |world.store.history| > |old(world.store.history)|
                && proc == Some(if |more| == SWAP_ATTEMPTS then ReconcileGaveUp(more)
                                else ReconcileRead(batch, settleSeconds, more))
    {
      ghost var input := Input(batch.latestReceivedAt, None, 0);
      var run := GetRun(input);
      var loaded := run.Record();
      more := windows;
      ghost var readAt := |world.store.history|;
      ReconciliationNeverFails(loaded, batch, settleSeconds);
      var changed := Reconcile(run, batch, settleSeconds);
      if !changed.value {
        Continue(input);
        return Some(run.Record()), more;
      }
      var swapped, before := UpdateRun(run.Record(), loaded, input);
      if swapped {
        return Some(run.Record()), more;
      }
      return None, windows + [Window(readAt, |before.history|)];
    }

    /** Retries the swap; gives up only if the row was changed by others in each of eight rounds. */
    method ReconcileCorrelatedRun(batch: Batch, settleSeconds: nat) returns (result: Result<Run, Failure>)
      requires Valid() && proc == Some(ReconcileRead(batch, settleSeconds, []))
      modifies this
      ensures Valid() && proc == None
      ensures match result
              case Ok(run) => run == world.store.run && Rank(run.state) >= (if batch.terminal then 2 else 1)
              case Err(failure) =>
                && failure == TooManyChanges
                && |world.store.history| >= |old(world.store.history)| + SWAP_ATTEMPTS
    {
      ghost var windows: seq<Window> := [];
      for attempt := 0 to SWAP_ATTEMPTS
        invariant Valid() && proc == Some(ReconcileRead(batch, settleSeconds, windows)) && |windows| == attempt
        invariant attempt < SWAP_ATTEMPTS
        invariant |world.store.history| >= |old(world.store.history)| + attempt
      {
        var outcome;
        outcome, windows := TryReconcile(batch, settleSeconds, windows);
        if outcome.Some? {
          return Ok(outcome.value);
        }
        if attempt == SWAP_ATTEMPTS - 1 {
          Continue(Input(batch.latestReceivedAt, None, 0));
          return Err(TooManyChanges);
        }
      }
    }

    /** The stored bundle already exists: only the row has to catch up with it. */
    method RecoverFinalization(bundle: EvidenceBundle, now: Time) returns (result: Result<EvidenceBundle, Failure>)
      requires Valid() && proc == Some(FinalizeRecover(bundle)) && world.store.bundle == Some(bundle)
      modifies this
      ensures Valid() && proc == None
      ensures result.Ok? ==> result.value == bundle && world.store.bundle == Some(bundle)
      ensures result.Err? ==> result.error == LostRace
    {
      ghost var input := Input(now, None, 0);
      var run := GetRun(input);
      if run.state == Finalizing {
        var loaded := run.Record();
        run.AssignEvidence(bundle, bundle.finalizedAt);
        var moved := run.TransitionTo(Evaluating, now);
        var swapped, before := UpdateRun(run.Record(), loaded, input);
        if !swapped {
          return Err(LostRace);
        }
      }
      return Ok(bundle);
    }

    /** Takes the run into Finalizing, unless it is there already. */
    method ClaimFinalization(now: Time) returns (result: Result<EvaluationRun, Failure>)
      requires Valid() && proc == Some(FinalizeRead)
      modifies this
      ensures Valid()
      ensures match result
              case Ok(run) =>
                && fresh(run) && run.state == Finalizing
                && proc == Some(FinalizeList(run.Record(), now))
              case Err(_) => proc == None
    {
      ghost var input := Input(now, None, 0);
      var run := GetRun(input);
      if run.state == Settling {
        if run.settleUntil.Some? && run.settleUntil.value > now {
          Continue(input);
          return Err(Unfinished);
        }
        var loaded := run.Record();
        var moved := run.TransitionTo(Finalizing, now);
        var swapped, before := UpdateRun(run.Record(), loaded, input);
        if !swapped {
          return Err(LostRace);
        }
      } else {
        Continue(input);
        if run.state != Finalizing {
          return Err(Lifecycle);
        }
      }
      return Ok(run);
    }

    /** Seals the assigned spans and moves the claimed run on. */
    method SealEvidence(run: EvaluationRun, now: Time) returns (result: Result<EvidenceBundle, Failure>)
      requires Valid() && run.state == Finalizing && proc == Some(FinalizeList(run.Record(), now))
      modifies this, run
      ensures Valid() && proc == None
      ensures result.Ok? ==>
        && world.store.bundle.Some?
        && result.value == world.store.bundle.value.(finalizedAt := Some(now))
    {
      ghost var input := Input(now, None, 0);
      var spans := ListSpans(input);
      var bundle := Seal(env, run.pins, run.completionReason, run.terminalState, spans, Some(now));
      var accepted := InsertBundle(bundle, input);
      result := WriteEvidence(run, |spans|, bundle, now);
    }

    method WriteEvidence(run: EvaluationRun, spanCount: nat, bundle: EvidenceBundle, now: Time)
      returns (result: Result<EvidenceBundle, Failure>)
      requires Valid() && run.state == Finalizing
      requires proc == Some(FinalizeWrite(run.Record(), now, spanCount, bundle))
      modifies this, run
      ensures Valid() && proc == None
      ensures result.Ok? ==>
        && world.store.bundle.Some?
        && result.value == world.store.bundle.value.(finalizedAt := Some(now))
    {
      var loaded := run.Record();
      run.spanCount := spanCount;
      run.AssignEvidence(bundle, Some(now));
      var moved := run.TransitionTo(Evaluating, now);
      var swapped, before := UpdateRun(run.Record(), loaded, Input(now, None, 0));
      return if swapped then Ok(bundle) else Err(LostRace);
    }

    /** What finalization returns is the stored evidence, up to the time at which it was sealed. */
    method FinalizeEvaluationRun(now: Time) returns (result: Result<EvidenceBundle, Failure>)
      requires Valid() && proc == Some(FinalizeCheck)
      modifies this
      ensures Valid() && proc == None
      ensures result.Ok? ==>
        && world.store.bundle.Some?
        && result.value == world.store.bundle.value.(finalizedAt := result.value.finalizedAt)
    {
      var stored := GetBundle(Input(now, None, 0));
      if stored.Some? {
        result := RecoverFinalization(stored.value, now);
        return;
      }
      var claimed := ClaimFinalization(now);
      if claimed.Err? {
        return Err(claimed.error);
      }
      result := SealEvidence(claimed.value, now);
    }

    /** Writes the verdict and completes the run. */
    method ShowVerdict(run: EvaluationRun, summary: Summary, now: Time) returns (result: Result<Summary, Failure>)
      requires Valid() && (proc == Some(EvaluateWrite(summary, run.Record()))
                           || proc == Some(EvaluateResumeWrite(summary, run.Record())))
      modifies this, run
      ensures Valid() && proc == None
      ensures result.Ok? ==>
        && result.value == summary
        && world.store.summary == Some(summary)
        && world.store.run.state == Completed
        && world.store.run.verdict == Some(summary.evaluation.verdict)
    {
      ghost var input := Input(now, None, 0);
      var loaded := run.Record();
      run.verdict := Some(summary.evaluation.verdict);
      var moved := run.TransitionTo(Completed, now);
      if moved.Err? {
        Continue(input);
        return Err(Lifecycle);
      }
      var swapped, before := UpdateRun(run.Record(), loaded, input);
      return if swapped then Ok(summary) else Err(LostRace);
    }

    /** Scores a loaded bundle with the pinned rules and stores the summary. */
    method ScoreBundle(run: Run, bundle: EvidenceBundle, input: Input) returns (result: Result<Summary, Failure>)
      requires Valid() && proc == Some(EvaluateLoadPack(run, bundle))
      modifies this
      ensures Valid()
      ensures proc == if result.Ok? then Some(EvaluateReread(result.value)) else None
    {
      Interfere();
      Continue(input);
      if input.pack.None? || ContentSha256(input.pack.value) != run.pins.policyContent {
        return Err(PolicyChanged);
      }
      var selected := SelectRules(input.pack.value.rules, run.pins.ruleIds);
      var summary := Summary(EvaluatePack(selected, bundle, env.parse), input.nonce);
      var accepted := SaveSummary(summary, input);
      return if accepted then Ok(summary) else Err(DuplicateRules);
    }

    method ScoreRun(input: Input) returns (result: Result<Summary, Failure>)
      requires Valid() && proc == Some(EvaluateRead)
      modifies this
      ensures Valid()
      ensures proc == if result.Ok? then Some(EvaluateReread(result.value)) else None
    {
      var run := GetRun(input);
      var loaded := run.Record();
      var bundle := GetBundle(input);
      if bundle.None? {
        return Err(NoEvidence);
      }
      result := ScoreBundle(loaded, bundle.value, input);
    }

    /** An evaluation that succeeds returns the stored summary; a first or resumed one completes the run with its verdict. */
    method EvaluateFinalizedRun(input: Input) returns (result: Result<Summary, Failure>)
      requires Valid() && proc == Some(EvaluateCheck)
      modifies this
      ensures Valid() && proc == None
      ensures result.Ok? ==> world.store.summary == Some(result.value)
    {
      var stored := GetSummary(input);
      if stored.Some? {
        var resumed := GetRun(input);
        if resumed.state == Evaluating {
          result := ShowVerdict(resumed, stored.value, input.now);
          return;
        }
        return Ok(stored.value);
      }
      var scored := ScoreRun(input);
      if scored.Err? {
        return scored;
      }
      var run := GetRun(input);
      result := ShowVerdict(run, scored.value, input.now);
    }
  }
}
