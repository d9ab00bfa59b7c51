/** The rows one evaluation run owns, and the atomic repository operations on them. */
module RunStore {
  import opened Wrappers
  import opened Sequences
  import opened Evidence
  import opened Evaluator
  import opened RunDomain

  datatype Span = Span(traceId: string, spanId: string, payload: Value)

  datatype Ingested = Ingested(span: Span, late: bool)

  /** Normalized spans: sorted trace ids, events in causal order, and the defects found on the way. */
  datatype Normalized = Normalized(traceIds: seq<string>, events: seq<Event>, defects: set<TraceDefect>)

  /** The deterministic functions this model leaves uninterpreted. */
  datatype Env = Env(normalize: (Pins, seq<Span>) -> Normalized, parse: Parser)

  // ---------------------------------------------------------------- evidence finalization

  function QualityFromDefects(defects: set<TraceDefect>): TraceQuality {
    if exists defect | defect in defects :: defect.blocking then Insufficient
    else if defects == {} then Complete
    else Degraded
  }

  const FORCED_TIMEOUT :=
    TraceDefect("forced_timeout", "The run was finalized by a bounded timeout", true)

  /** The defects that count once the reason for completion is known. */
  function EffectiveDefects(reason: Option<CompletionReason>, defects: set<TraceDefect>): set<TraceDefect> {
    match reason
    case None => defects
    case Some(IdleTimeout) => defects + {FORCED_TIMEOUT}
    case Some(MaxDuration) => defects + {FORCED_TIMEOUT}
    case Some(_) => set defect | defect in defects && defect.code != "missing_terminal"
  }

  /** Seals the spans of a run into evidence; the digest does not cover `finalizedAt`. */
  function Seal(env: Env, pins: Pins, reason: Option<CompletionReason>, terminalState: Option<string>,
                spans: seq<Span>, finalizedAt: Option<Time>): EvidenceBundle
  {
    var normalized := env.normalize(pins, spans);
    var defects := EffectiveDefects(reason, normalized.defects);
    EvidenceBundle(
      normalized.traceIds, reason, terminalState, normalized.events, QualityFromDefects(defects), finalizedAt,
      EvidenceDigest(EvidenceContent(
        pins.targetVersion, pins.policyContent, normalized.traceIds, reason, terminalState, normalized.events, defects)))
  }

  // ---------------------------------------------------------------- policy packs and summaries

  datatype PackStatus = Draft | Approved | Disabled | Rejected

  datatype Pack = Pack(id: nat, status: PackStatus, rules: seq<CompiledRule>, salt: nat)

  /** The content hash covers the rules (and, through `salt`, the rest of the bundle). */
  function ContentSha256(pack: Pack): PolicyDigest {
    PolicyDigest(pack.rules, pack.salt)
  }

  function SelectRules(rules: seq<CompiledRule>, ruleIds: seq<string>): seq<CompiledRule> {
    if ruleIds == [] then rules else Filter((rule: CompiledRule) => rule.id in ruleIds, rules)
  }

  /** A stored summary; `nonce` stands for the fresh identifiers of its rule results. */
  datatype Summary = Summary(evaluation: EvaluationSummary, nonce: nat)

  predicate DistinctRuleIds(results: seq<RuleResult>) {
    forall i, j | 0 <= i < j < |results| :: results[i].ruleId != results[j].ruleId
  }

  // ---------------------------------------------------------------- the store

  /** `history` lists every value the run row has had, the current one last. */
  datatype Store = Store(
    run: Run,
    spans: seq<Ingested>,
    bundle: Option<EvidenceBundle>,
    summary: Option<Summary>,
    history: seq<Run>)

  function Assigned(spans: seq<Ingested>): seq<Span> {
    if spans == [] then []
    else (if spans[0].late then [] else [spans[0].span]) + Assigned(spans[1..])
  }

  function WriteRow(store: Store, run: Run): Store {
    if run == store.run then store else store.(run := run, history := store.history + [run])
  }

  /** Compare-and-swap on the state and the time of the last update. */
  function UpdateRun(store: Store, run: Run, expectedState: RunState, expectedUpdatedAt: Time): (Store, bool) {
    if store.run.state == expectedState && store.run.updatedAt == expectedUpdatedAt
    then (WriteRow(store, run.(pins := store.run.pins)), true)
    else (store, false)
  }

  datatype SpanOutcome = Inserted | Duplicate | Conflict | LateAfterFinalize

  /** Stores a span correlated to this run; a counted span also stamps the row with its receive time. */
  function InsertSpan(store: Store, span: Span, receivedAt: Time, maxSpans: nat): (Store, SpanOutcome) {
    if exists ingested | ingested in store.spans :: ingested.span == span then (store, Duplicate)
    else if exists ingested | ingested in store.spans ::
              ingested.span.traceId == span.traceId && ingested.span.spanId == span.spanId
    then (store, Conflict)
    else if !AcceptsSpans(store.run.state) then
      (store.(spans := store.spans + [Ingested(span, true)]), LateAfterFinalize)
    else if store.run.spanCount >= maxSpans then (store, Conflict)
    else
      var counted := store.run.(
        lastSeenAt := Some(receivedAt), updatedAt := receivedAt, spanCount := store.run.spanCount + 1);
      (WriteRow(store.(spans := store.spans + [Ingested(span, false)]), counted), Inserted)
  }

  /** Bundles are written once; offering the same evidence again is accepted and changes nothing. */
  function InsertBundle(store: Store, bundle: EvidenceBundle): (Store, bool) {
    if store.bundle.Some? then (store, store.bundle.value.evidenceSha256 == bundle.evidenceSha256)
    else (store.(bundle := Some(bundle)), true)
  }

  /** Saving a summary also sets the verdict and the completion time of the run row. */
  function SaveSummary(store: Store, summary: Summary, now: Time): (Store, bool) {
    if store.summary.Some? then (store, store.summary.value == summary)
    else if !DistinctRuleIds(summary.evaluation.results) then (store, false)
    else
      var decided := store.run.(
        verdict := Some(summary.evaluation.verdict), completedAt := Some(now), updatedAt := now);
      (WriteRow(store.(summary := Some(summary)), decided), true)
  }

  // ---------------------------------------------------------------- creation

  datatype CreateRequest = CreateRequest(
    runId: nat, targetVersion: string, ruleIds: seq<string>, maxDurationSeconds: nat)

  datatype CreateError = NotPublishable | UnknownRule

  predicate Publishable(pack: Pack) {
    pack.status == Approved && pack.rules != []
  }

  predicate KnownRules(ruleIds: seq<string>, rules: seq<CompiledRule>) {
    forall id | id in ruleIds :: exists rule | rule in rules :: rule.id == id
  }

  /** The first row of a run, or why it is refused. */
  function CreateRun(request: CreateRequest, pack: Pack, now: Time): Result<Store, CreateError> {
    if !Publishable(pack) then Err(NotPublishable)
    else if !KnownRules(request.ruleIds, pack.rules) then Err(UnknownRule)
    else
      var pins := Pins(
        request.runId, request.targetVersion, pack.id, ContentSha256(pack), request.ruleIds, now);
      var run := Run(
        pins, Created, None, None, None, None, None, 0, 0, 0, now, None, None,
        now + Clamp(request.maxDurationSeconds, 1, 86_400), None, None);
      Ok(Store(run, [], None, None, [run]))
  }
}
