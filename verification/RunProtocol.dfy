/**
 * The use cases that share one evaluation run, as processes whose repository calls interleave
 * arbitrarily. A schedule is any sequence of actions; a process may crash between any two calls.
 */
module RunProtocol {
  import opened Wrappers
  import opened Evidence
  import opened Evaluator
  import opened RunDomain
  import opened RunStore

  datatype CompletionRequest = CompletionRequest(
    reason: CompletionReason, terminalState: Option<string>, settleSeconds: nat)

  /** What one telemetry batch tells about the run it was correlated with. */
  datatype Batch = Batch(
    latestReceivedAt: Time, insertedAny: bool, terminal: bool, terminalState: Option<string>)

  /** A failed swap: the length of the history when the row was read and when the swap failed. */
  datatype Window = Window(readAt: nat, swapAt: nat)

  /** A use case between two repository calls, with what it has loaded so far. */
  datatype Proc =
    | CompleteRead(request: CompletionRequest)
    | CompleteWrite(request: CompletionRequest, run: Run)
    | CancelRead
    | CancelWrite(run: Run)
    | MarkFailedRead
    | MarkFailedWrite(run: Run)
    | ReconcileRead(batch: Batch, settleSeconds: nat, windows: seq<Window>)
    | ReconcileWrite(batch: Batch, settleSeconds: nat, windows: seq<Window>, readAt: nat, run: Run)
    | ReconcileGaveUp(windows: seq<Window>)
    | FinalizeCheck
    | FinalizeRecover(bundle: EvidenceBundle)
    | FinalizeRecoverWrite(bundle: EvidenceBundle, run: Run)
    | FinalizeRead
    | FinalizeClaim(run: Run)
    | FinalizeList(run: Run, now: Time)
    | FinalizeInsert(run: Run, now: Time, spans: seq<Span>)
    | FinalizeWrite(run: Run, now: Time, spanCount: nat, bundle: EvidenceBundle)
    | EvaluateCheck
    | EvaluateResume(summary: Summary)
    | EvaluateResumeWrite(summary: Summary, run: Run)
    | EvaluateRead
    | EvaluateLoadBundle(run: Run)
    | EvaluateLoadPack(run: Run, bundle: EvidenceBundle)
    | EvaluateSave(summary: Summary)
    | EvaluateReread(summary: Summary)
    | EvaluateWrite(summary: Summary, run: Run)

  /** The point at which a use case starts. */
  predicate IsStart(proc: Proc) {
    || proc.CompleteRead? || proc.CancelRead? || proc.MarkFailedRead? || proc.FinalizeCheck? || proc.EvaluateCheck?
    || (proc.ReconcileRead? && proc.windows == [])
  }

  /** What a step draws from outside: the clock, the pack repository and fresh identifiers. */
  datatype Input = Input(now: Time, pack: Option<Pack>, nonce: nat)

  const SWAP_ATTEMPTS := 8

  // ---------------------------------------------------------------- local computations

  /** The row a completion request leads to. */
  function Completion(run: Run, request: CompletionRequest, now: Time): Result<Run, DomainError> {
    Settle(run, request.reason, request.terminalState, now + Min(request.settleSeconds, 300), now)
  }

  /** The row telemetry reconciliation wants to write; the loaded row itself when nothing is to change. */
  function Reconciled(run: Run, batch: Batch, settleSeconds: nat): Result<Run, DomainError> {
    var now := batch.latestReceivedAt;
    if batch.terminal && (run.state == Created || run.state == Collecting) then
      Settle(run, TerminalEvent, batch.terminalState, now + settleSeconds, now)
    else if run.state == Created then Transition(run, Collecting, now)
    else if run.state == Settling && batch.insertedAny then
      var proposed := Min(now + settleSeconds, run.hardDeadlineAt);
      var extended := if run.settleUntil.None? then proposed else Max(run.settleUntil.value, proposed);
      Ok(if run.settleUntil == Some(extended) then run else run.(settleUntil := Some(extended), updatedAt := now))
    else Ok(run)
  }

  predicate StillSettling(run: Run, now: Time) {
    run.settleUntil.Some? && run.settleUntil.value > now
  }

  function Score(env: Env, run: Run, pack: Pack, bundle: EvidenceBundle): EvaluationSummary {
    EvaluatePack(SelectRules(pack.rules, run.pins.ruleIds), bundle, env.parse)
  }

  // ---------------------------------------------------------------- one repository call

  /** Writes `next` if the row is still as `loaded`, and reports whether it was. */
  function Swap(store: Store, loaded: Run, next: Run): (Store, bool) {
    UpdateRun(store, next, loaded.state, loaded.updatedAt)
  }

  function SwapThen(store: Store, loaded: Run, next: Run, proc: Option<Proc>): (Store, Option<Proc>) {
    var (store', swapped) := Swap(store, loaded, next);
    (store', if swapped then proc else None)
  }

  /** The next repository call of `proc`; no successor means that the use case has returned. */
  function Advance(env: Env, store: Store, proc: Proc, input: Input): (Store, Option<Proc>) {
    match proc
    case CompleteRead(request) => (store, Some(CompleteWrite(request, store.run)))
    case CompleteWrite(request, run) =>
      (match Completion(run, request, input.now)
       case Err(_) => (store, None)
       case Ok(next) => SwapThen(store, run, next, None))
    case CancelRead => (store, Some(CancelWrite(store.run)))
    case CancelWrite(run) =>
      (match Transition(run, Cancelled, input.now)
       case Err(_) => (store, None)
       case Ok(next) => SwapThen(store, run, next, None))
    case MarkFailedRead => (store, if IsTerminal(store.run.state) then None else Some(MarkFailedWrite(store.run)))
    case MarkFailedWrite(run) =>
      (match Transition(run, RunFailed, input.now)
       case Err(_) => (store, None)
       case Ok(next) => SwapThen(store, run, next, None))
    case ReconcileRead(batch, settleSeconds, windows) =>
      (store, Some(ReconcileWrite(batch, settleSeconds, windows, |store.history|, store.run)))
    case ReconcileWrite(batch, settleSeconds, windows, readAt, run) =>
      (match Reconciled(run, batch, settleSeconds)
       case Err(_) => (store, None)
       case Ok(next) =>
         if next == run then (store, None)
         else
           var (store', swapped) := Swap(store, run, next);
           var windows' := windows + [Window(readAt, |store.history|)];
           (store', if swapped then None
                    else if |windows'| == SWAP_ATTEMPTS then Some(ReconcileGaveUp(windows'))
                    else Some(ReconcileRead(batch, settleSeconds, windows'))))
    case ReconcileGaveUp(_) => (store, None)
    case FinalizeCheck =>
      (store, Some(if store.bundle.Some? then FinalizeRecover(store.bundle.value) else FinalizeRead))
    case FinalizeRecover(bundle) =>
      (store, if store.run.state == Finalizing then Some(FinalizeRecoverWrite(bundle, store.run)) else None)
    case FinalizeRecoverWrite(bundle, run) =>
      (match Transition(WithEvidence(run, bundle, bundle.finalizedAt), Evaluating, input.now)
       case Err(_) => (store, None)
       case Ok(next) => SwapThen(store, run, next, None))
    case FinalizeRead => (store, Some(FinalizeClaim(store.run)))
    case FinalizeClaim(run) =>
      if run.state == Settling then
        if StillSettling(run, input.now) then (store, None)
        else
          match Transition(run, Finalizing, input.now)
          case Err(_) => (store, None)
          case Ok(next) => SwapThen(store, run, next, Some(FinalizeList(next, input.now)))
      else if run.state == Finalizing then (store, Some(FinalizeList(run, input.now)))
      else (store, None)
    case FinalizeList(run, now) => (store, Some(FinalizeInsert(run, now, Assigned(store.spans))))
    case FinalizeInsert(run, now, spans) =>
      var bundle := Seal(env, run.pins, run.completionReason, run.terminalState, spans, Some(now));
      var (store', accepted) := InsertBundle(store, bundle);
      (store', if accepted then Some(FinalizeWrite(run, now, |spans|, bundle)) else None)
    case FinalizeWrite(run, now, spanCount, bundle) =>
      (match Transition(WithEvidence(run, bundle, Some(now)).(spanCount := spanCount), Evaluating, now)
       case Err(_) => (store, None)
       case Ok(next) => SwapThen(store, run, next, None))
    case EvaluateCheck =>
      (store, Some(if store.summary.Some? then EvaluateResume(store.summary.value) else EvaluateRead))
    case EvaluateResume(summary) =>
      (store, if store.run.state == Evaluating then Some(EvaluateResumeWrite(summary, store.run)) else None)
    case EvaluateResumeWrite(summary, run) =>
      (match Transition(run.(verdict := Some(summary.evaluation.verdict)), Completed, input.now)
       case Err(_) => (store, None)
       case Ok(next) => SwapThen(store, run, next, None))
    case EvaluateRead => (store, Some(EvaluateLoadBundle(store.run)))
    case EvaluateLoadBundle(run) =>
      (store, if store.bundle.Some? then Some(EvaluateLoadPack(run, store.bundle.value)) else None)
    case EvaluateLoadPack(run, bundle) =>
      if input.pack.None? || ContentSha256(input.pack.value) != run.pins.policyContent
      then (store, None)
      else (store, Some(EvaluateSave(Summary(Score(env, run, input.pack.value, bundle), input.nonce))))
    case EvaluateSave(summary) =>
      var (store', accepted) := SaveSummary(store, summary, input.now);
      (store', if accepted then Some(EvaluateReread(summary)) else None)
    case EvaluateReread(summary) => (store, Some(EvaluateWrite(summary, store.run)))
    case EvaluateWrite(summary, run) =>
      (match Transition(run.(verdict := Some(summary.evaluation.verdict)), Completed, input.now)
       case Err(_) => (store, None)
       case Ok(next) => SwapThen(store, run, next, None))
  }

  /** The row a process is about to write from what it loaded; none when it writes no row in this step. */
  function Proposal(proc: Proc, input: Input): Option<(Run, Run)> {
    match proc
    case CompleteWrite(request, run) => Proposed(run, Completion(run, request, input.now))
    case CancelWrite(run) => Proposed(run, Transition(run, Cancelled, input.now))
    case MarkFailedWrite(run) => Proposed(run, Transition(run, RunFailed, input.now))
    case ReconcileWrite(batch, settleSeconds, _, _, run) =>
      var next := Reconciled(run, batch, settleSeconds);
      if next == Ok(run) then None else Proposed(run, next)
    case FinalizeRecoverWrite(bundle, run) =>
      Proposed(run, Transition(WithEvidence(run, bundle, bundle.finalizedAt), Evaluating, input.now))
    case FinalizeClaim(run) =>
      if run.state == Settling && !StillSettling(run, input.now)
      then Proposed(run, Transition(run, Finalizing, input.now)) else None
    case FinalizeWrite(run, now, spanCount, bundle) =>
      Proposed(run, Transition(WithEvidence(run, bundle, Some(now)).(spanCount := spanCount), Evaluating, now))
    case EvaluateResumeWrite(summary, run) =>
      Proposed(run, Transition(run.(verdict := Some(summary.evaluation.verdict)), Completed, input.now))
    case EvaluateWrite(summary, run) =>
      Proposed(run, Transition(run.(verdict := Some(summary.evaluation.verdict)), Completed, input.now))
    case _ => None
  }

  function Proposed(loaded: Run, next: Result<Run, DomainError>): Option<(Run, Run)> {
    if next.Ok? then Some((loaded, next.value)) else None
  }

  // ---------------------------------------------------------------- schedules

  datatype World = World(store: Store, procs: map<nat, Proc>)

  datatype Action =
    | Spawn(pid: nat, proc: Proc)
    | Crash(pid: nat)
    | Step(pid: nat, input: Input)
    | Receive(span: Span, receivedAt: Time, maxSpans: nat)

  /** One action; an action that is not enabled changes nothing. */
  function Apply(env: Env, world: World, action: Action): World {
    match action
    case Spawn(pid, proc) =>
      if IsStart(proc) && pid !in world.procs then world.(procs := world.procs[pid := proc]) else world
    case Crash(pid) => world.(procs := world.procs - {pid})
    case Step(pid, input) =>
      if pid !in world.procs then world
      else
        var (store, proc) := Advance(env, world.store, world.procs[pid], input);
        World(store, if proc.Some? then world.procs[pid := proc.value] else world.procs - {pid})
    case Receive(span, receivedAt, maxSpans) =>
      world.(store := InsertSpan(world.store, span, receivedAt, maxSpans).0)
  }

  function Execute(env: Env, world: World, schedule: seq<Action>): World
    decreases |schedule|
  {
    if schedule == [] then world
    else Apply(env, Execute(env, world, schedule[..|schedule| - 1]), schedule[|schedule| - 1])
  }

  /** The worlds a created run can reach. */
  ghost predicate Initial(world: World) {
    && world.procs == map[]
    && exists request, pack, now :: CreateRun(request, pack, now) == Ok(world.store)
  }
}
