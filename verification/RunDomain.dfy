/** The evaluation run and its lifecycle. */
module RunDomain {
  import opened Wrappers
  import opened Evidence

  datatype RunState = Created | Collecting | Settling | Finalizing | Evaluating | Completed | Cancelled | RunFailed

  predicate IsTerminal(state: RunState) {
    state == Completed || state == Cancelled || state == RunFailed
  }

  predicate AcceptsSpans(state: RunState) {
    state == Created || state == Collecting || state == Settling
  }

  /** What a run is created with and no later write touches. */
  datatype Pins = Pins(
    runId: nat,
    targetVersion: string,
    policyPackId: nat,
    policyContent: PolicyDigest,
    ruleIds: seq<string>,
    createdAt: Time)

  /** A run as one value: what a repository row holds and what a use case has loaded. */
  datatype Run = Run(
    pins: Pins,
    state: RunState,
    completionReason: Option<CompletionReason>,
    terminalState: Option<string>,
    verdict: Option<RunVerdict>,
    traceQuality: Option<TraceQuality>,
    evidenceSha256: Option<EvidenceDigest>,
    spanCount: nat,
    traceCount: nat,
    eventCount: nat,
    updatedAt: Time,
    lastSeenAt: Option<Time>,
    settleUntil: Option<Time>,
    hardDeadlineAt: Time,
    finalizedAt: Option<Time>,
    completedAt: Option<Time>)

  datatype DomainError = InvalidTransition | ConflictingCompletion

  predicate AllowedTransition(state: RunState, next: RunState) {
    || (state == Created && (next == Collecting || next == Settling))
    || (state == Collecting && next == Settling)
    || (state == Settling && next == Finalizing)
    || (state == Finalizing && next == Evaluating)
    || (state == Evaluating && next == Completed)
    || (!IsTerminal(state) && (next == Cancelled || next == RunFailed))
  }

  function Min(a: int, b: int): int {
    if a <= b then a else b
  }

  function Max(a: int, b: int): int {
    if a >= b then a else b
  }

  function Clamp(x: int, low: int, high: int): int
    requires low <= high
  {
    if x < low then low else if x > high then high else x
  }

  function Transition(run: Run, next: RunState, now: Time): Result<Run, DomainError> {
    if run.state == next then Ok(run)
    else if !AllowedTransition(run.state, next) then Err(InvalidTransition)
    else Ok(run.(state := next, updatedAt := now,
                 completedAt := if next == Completed then Some(now) else run.completedAt))
  }

  function Settle(run: Run, reason: CompletionReason, terminalState: Option<string>, settleUntil: Time, now: Time)
    : Result<Run, DomainError>
  {
    var capped := Some(Min(settleUntil, run.hardDeadlineAt));
    if run.completionReason.Some? then
      if run.completionReason.value != reason || run.terminalState != terminalState then Err(ConflictingCompletion)
      else if run.state == Settling then Ok(run.(settleUntil := capped, updatedAt := now))
      else Ok(run)
    else
      match Transition(run, Settling, now)
      case Err(error) => Err(error)
      case Ok(next) =>
        Ok(next.(completionReason := Some(reason), terminalState := terminalState, settleUntil := capped))
  }

  /** The row with its evidence fields taken from a bundle. */
  function WithEvidence(run: Run, bundle: EvidenceBundle, finalizedAt: Option<Time>): Run {
    run.(
      traceCount := |bundle.traceIds|,
      eventCount := |bundle.events|,
      traceQuality := Some(bundle.traceQuality),
      evidenceSha256 := Some(bundle.evidenceSha256),
      finalizedAt := finalizedAt)
  }

  /** The run as use cases hold it: fields assigned one by one. */
  class EvaluationRun {
    const pins: Pins
    const hardDeadlineAt: Time
    var state: RunState
    var completionReason: Option<CompletionReason>
    var terminalState: Option<string>
    var verdict: Option<RunVerdict>
    var traceQuality: Option<TraceQuality>
    var evidenceSha256: Option<EvidenceDigest>
    var spanCount: nat
    var traceCount: nat
    var eventCount: nat
    var updatedAt: Time
    var lastSeenAt: Option<Time>
    var settleUntil: Option<Time>
    var finalizedAt: Option<Time>
    var completedAt: Option<Time>

    function Record(): Run
      reads this
    {
      Run(pins, state, completionReason, terminalState, verdict, traceQuality, evidenceSha256, spanCount, traceCount,
          eventCount, updatedAt, lastSeenAt, settleUntil, hardDeadlineAt, finalizedAt, completedAt)
    }

    constructor (run: Run)
      ensures Record() == run
    {
      pins, hardDeadlineAt := run.pins, run.hardDeadlineAt;
      state, completionReason, terminalState := run.state, run.completionReason, run.terminalState;
      verdict, traceQuality, evidenceSha256 := run.verdict, run.traceQuality, run.evidenceSha256;
      spanCount, traceCount, eventCount := run.spanCount, run.traceCount, run.eventCount;
      updatedAt, lastSeenAt, settleUntil := run.updatedAt, run.lastSeenAt, run.settleUntil;
      finalizedAt, completedAt := run.finalizedAt, run.completedAt;
    }

    method AssignEvidence(bundle: EvidenceBundle, finalized: Option<Time>)
      modifies this
      ensures Record() == WithEvidence(old(Record()), bundle, finalized)
    {
      traceCount := |bundle.traceIds|;
      eventCount := |bundle.events|;
      traceQuality := Some(bundle.traceQuality);
      evidenceSha256 := Some(bundle.evidenceSha256);
      finalizedAt := finalized;
    }

    method TransitionTo(next: RunState, now: Time) returns (result: Result<(), DomainError>)
      modifies this
      ensures match Transition(old(Record()), next, now)
              case Ok(run) => result == Ok(()) && Record() == run
              case Err(error) => result == Err(error) && Record() == old(Record())
    {
      if state == next {
        return Ok(());
      }
      if !AllowedTransition(state, next) {
        return Err(InvalidTransition);
      }
      state := next;
      updatedAt := now;
      if next == Completed {
        completedAt := Some(now);
      }
      return Ok(());
    }

    method BeginSettling(reason: CompletionReason, terminal: Option<string>, until: Time, now: Time)
      returns (result: Result<(), DomainError>)
      modifies this
      ensures match Settle(old(Record()), reason, terminal, until, now)
              case Ok(run) => result == Ok(()) && Record() == run
              case Err(error) => result == Err(error) && Record() == old(Record())
    {
      if completionReason.Some? {
        if completionReason.value != reason || terminalState != terminal {
          return Err(ConflictingCompletion);
        }
        if state == Settling {
          settleUntil := Some(Min(until, hardDeadlineAt));
          updatedAt := now;
        }
        return Ok(());
      }
      var moved := TransitionTo(Settling, now);
      if moved.Err? {
        return moved;
      }
      completionReason := Some(reason);
      terminalState := terminal;
      settleUntil := Some(Min(until, hardDeadlineAt));
      return Ok(());
    }
  }

  // ---------------------------------------------------------------- order of the lifecycle

  function Rank(state: RunState): nat {
    match state
    case Created => 0
    case Collecting => 1
    case Settling => 2
    case Finalizing => 3
    case Evaluating => 4
    case _ => 5
  }

  /** `later` is a possible later value of the row that once was `earlier`. */
  predicate Follows(earlier: Run, later: Run) {
    && later.pins == earlier.pins
    && later.hardDeadlineAt == earlier.hardDeadlineAt
    && Rank(earlier.state) <= Rank(later.state)
    && (Rank(earlier.state) == Rank(later.state) ==> earlier.state == later.state)
    && (earlier.completionReason.Some? || earlier.state == later.state ==>
          later.completionReason == earlier.completionReason && later.terminalState == earlier.terminalState)
    && (earlier.evidenceSha256.Some? || earlier.state == later.state ==> SameEvidenceFields(earlier, later))
  }

  /** `later` is a possible next value of the row `earlier`. */
  predicate Succeeds(earlier: Run, later: Run) {
    && Follows(earlier, later)
    && (earlier.state == later.state || AllowedTransition(earlier.state, later.state))
  }

  predicate SameEvidenceFields(a: Run, b: Run) {
    && a.evidenceSha256 == b.evidenceSha256
    && a.traceCount == b.traceCount
    && a.eventCount == b.eventCount
    && a.traceQuality == b.traceQuality
  }

  lemma FollowsTransitive(a: Run, b: Run, c: Run)
    requires Follows(a, b) && Follows(b, c)
    ensures Follows(a, c)
  {
  }

  /** The shape of a row in each state. */
  predicate WellFormedRun(run: Run) {
    && (run.state == Created || run.state == Collecting ==> run.completionReason.None? && run.settleUntil.None?)
    && (2 <= Rank(run.state) <= 4 || run.state == Completed ==> run.completionReason.Some? && run.settleUntil.Some?)
    && (run.completionReason.None? ==> run.terminalState.None?)
    && (run.settleUntil.Some? ==> run.settleUntil.value <= run.hardDeadlineAt)
    && (Rank(run.state) <= 3 ==> run.evidenceSha256.None?)
    && (run.state == Evaluating || run.state == Completed ==> run.evidenceSha256.Some?)
    && (run.verdict.Some? ==> Rank(run.state) >= 3)
    && (run.state == Completed ==> run.verdict.Some?)
  }
}
