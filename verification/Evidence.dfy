/** Structured values, normalized events, rules and evidence bundles. */
module Evidence {
  import opened Wrappers
  import opened Text

  type Time = int
  type EventId = nat

  datatype Value =
    | Null
    | Bool(b: bool)
    | Number(n: real)
    | Str(s: string)
    | Array(items: seq<Value>)
    | Object(fields: map<string, Value>)

  function Get<T>(m: map<string, T>, key: string): Option<T> {
    if key in m then Some(m[key]) else None
  }

  function AsStr(v: Option<Value>): Option<string> {
    if v.Some? && v.value.Str? then Some(v.value.s) else None
  }

  /** Follows `parts` through nested objects; a part never indexes an array. */
  function Descend(v: Value, parts: seq<string>): Option<Value> {
    if parts == [] then Some(v)
    else if v.Object? && parts[0] in v.fields then Descend(v.fields[parts[0]], parts[1..])
    else None
  }

  function ValueAtPath(v: Value, path: string): Option<Value> {
    Descend(v, Split(path, '.'))
  }

  datatype EventType =
    | ScenarioInput | AgentStart | ModelCall | ModelResult | ToolCall | ToolResult | Retrieval | Handoff
    | GuardrailDecision | HumanApprovalRequest | HumanApprovalDecision | FinalOutput | SideEffect | Retry
    | ErrorEvent | Timeout | Cancellation | Unclassified

  /** The serialized (snake case) name of an event type. */
  function EventTypeName(t: EventType): string {
    match t
    case ScenarioInput => "scenario_input"
    case AgentStart => "agent_start"
    case ModelCall => "model_call"
    case ModelResult => "model_result"
    case ToolCall => "tool_call"
    case ToolResult => "tool_result"
    case Retrieval => "retrieval"
    case Handoff => "handoff"
    case GuardrailDecision => "guardrail_decision"
    case HumanApprovalRequest => "human_approval_request"
    case HumanApprovalDecision => "human_approval_decision"
    case FinalOutput => "final_output"
    case SideEffect => "side_effect"
    case Retry => "retry"
    case ErrorEvent => "error"
    case Timeout => "timeout"
    case Cancellation => "cancellation"
    case Unclassified => "unclassified"
  }

  /** An event, reduced to the fields the evaluator reads. */
  datatype Event = Event(
    id: EventId,
    sequence: nat,
    endedAt: Option<Time>,
    eventType: EventType,
    name: string,
    input: Value,
    output: Value,
    attributes: map<string, Value>)

  datatype NumericMatcher = NumericMatcher(path: string, greaterThan: real)

  datatype EventMatcher = EventMatcher(
    eventType: EventType,
    name: Option<string>,
    attributeEquals: map<string, Value>,
    numericArgument: Option<NumericMatcher>)

  datatype Assertion =
    | ExistsBefore(matcher: EventMatcher)
    | Absent(matcher: EventMatcher)
    | MaxCount(matcher: EventMatcher, count: nat)
    | TerminalState(state: string)

  datatype Severity = Critical | High | Medium | Advisory

  datatype MissingEvidencePolicy = ReportNotObservable | ReportFail | ReportError

  datatype CompiledRule = CompiledRule(
    id: string,
    obligationKey: string,
    severity: Severity,
    trigger: EventMatcher,
    assertions: seq<Assertion>,
    evidenceRequired: seq<string>,
    onMissingEvidence: MissingEvidencePolicy)

  datatype TraceQuality = Complete | Degraded | Insufficient

  datatype TraceDefect = TraceDefect(code: string, message: string, blocking: bool)

  datatype CompletionReason = Explicit | TerminalEvent | TargetTerminalResponse | IdleTimeout | MaxDuration

  /** What the evidence digest is computed over. */
  datatype EvidenceContent = EvidenceContent(
    targetVersion: string,
    policyContent: PolicyDigest,
    traceIds: seq<string>,
    completionReason: Option<CompletionReason>,
    terminalState: Option<string>,
    events: seq<Event>,
    defects: set<TraceDefect>)

  /** Digests are collision-free tokens: a digest is the content it was computed from. */
  datatype EvidenceDigest = EvidenceDigest(content: EvidenceContent)

  /** The content hash of a policy pack covers its rules, its obligations with their fresh ids, and its sources. */
  datatype PolicyDigest = PolicyDigest(rules: seq<CompiledRule>, salt: nat)

  datatype EvidenceBundle = EvidenceBundle(
    traceIds: seq<string>,
    completionReason: Option<CompletionReason>,
    terminalState: Option<string>,
    events: seq<Event>,
    traceQuality: TraceQuality,
    finalizedAt: Option<Time>,
    evidenceSha256: EvidenceDigest)

  datatype RunVerdict = Pass | Fail | Inconclusive
}
