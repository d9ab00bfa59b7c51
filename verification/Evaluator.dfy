/** The deterministic evaluator: rule matching, assertions, rule results and the pack verdict. */
module Evaluator {
  import opened Wrappers
  import opened Sequences
  import opened Text
  import opened Evidence

  /** Reads a text as a structured value; the reader itself is not part of this model. */
  type Parser = string -> Option<Value>

  datatype RuleStatus = Passed | Failed | NotObservable | Errored

  datatype RuleResult = RuleResult(ruleId: string, severity: Severity, status: RuleStatus, cited: seq<EventId>)

  predicate EventMatches(event: Event, matcher: EventMatcher) {
    && event.eventType == matcher.eventType
    && (matcher.name.Some? ==> event.name == matcher.name.value)
    && (forall key | key in matcher.attributeEquals ::
          Get(event.attributes, key) == Some(matcher.attributeEquals[key]))
    && (matcher.numericArgument.Some? ==>
          var found := ValueAtPath(event.input, matcher.numericArgument.value.path);
          found.Some? && found.value.Number? && found.value.n > matcher.numericArgument.value.greaterThan)
  }

  function ReportedTerminalState(event: Event): Option<string> {
    AsStr(if "terminal_state" in event.attributes then Get(event.attributes, "terminal_state")
          else if "featherlane.run.terminal_state" in event.attributes
          then Get(event.attributes, "featherlane.run.terminal_state")
          else Get(event.attributes, "governance.terminal_state"))
  }

  predicate StateMatches(state: string, evidence: EvidenceBundle) {
    || evidence.terminalState == Some(state)
    || exists event | event in evidence.events :: ReportedTerminalState(event) == Some(state)
  }

  function EventHasPath(event: Event, path: string): bool {
    match StripPrefix(path, "input.")
    case Some(rest) => ValueAtPath(event.input, rest).Some?
    case None =>
      match StripPrefix(path, "output.")
      case Some(rest) => ValueAtPath(event.output, rest).Some?
      case None =>
        match StripPrefix(path, "attributes.")
        case Some(rest) => rest in event.attributes || ValueAtPath(Object(event.attributes), rest).Some?
        case None => false
  }

  predicate SupportedPath(path: string) {
    "input." <= path || "output." <= path || "attributes." <= path
  }

  predicate AttributeObserved(event: Event, key: string, expected: Option<string>, parse: Parser) {
    && key in event.attributes
    && (expected.Some? ==>
          || event.attributes[key] == Str(expected.value)
          || parse(expected.value) == Some(event.attributes[key]))
  }

  /** One requirement read against one event, after the bundle-level `terminal_state` case. */
  predicate EventSupplies(event: Event, requirement: string, parse: Parser) {
    match StripPrefix(requirement, "attribute:")
    case Some(attribute) =>
      (match SplitOnce(attribute, '=')
       case None => AttributeObserved(event, attribute, None, parse)
       case Some((key, value)) => AttributeObserved(event, key, Some(value), parse))
    case None =>
      match SplitOnce(requirement, '.')
      case Some((typeName, path)) =>
        if (exists t :: EventTypeName(t) == typeName) && SupportedPath(path)
        then EventTypeName(event.eventType) == typeName && EventHasPath(event, path)
        else EventTypeName(event.eventType) == requirement || requirement in event.attributes
      case None => EventTypeName(event.eventType) == requirement || requirement in event.attributes
  }

  predicate HasRequiredEvidence(requirement: string, evidence: EvidenceBundle, parse: Parser) {
    var trimmed := Trim(requirement);
    if trimmed == "terminal_state" then evidence.terminalState.Some?
    else exists event | event in evidence.events :: EventSupplies(event, trimmed, parse)
  }

  predicate AllEvidencePresent(rule: CompiledRule, evidence: EvidenceBundle, parse: Parser) {
    forall requirement | requirement in rule.evidenceRequired :: HasRequiredEvidence(requirement, evidence, parse)
  }

  datatype Outcome = Holds(cited: seq<EventId>) | Violated(cited: seq<EventId>) | Unobservable

  function Ids(events: seq<Event>): (ids: seq<EventId>)
    ensures |ids| == |events|
    ensures forall i :: 0 <= i < |ids| ==> ids[i] == events[i].id
  {
    seq(|events|, i requires 0 <= i < |events| => events[i].id)
  }

  function Matching(events: seq<Event>, matcher: EventMatcher): seq<Event> {
    Filter((event: Event) => EventMatches(event, matcher), events)
  }

  function Earlier(events: seq<Event>, trigger: Event, matcher: EventMatcher): seq<Event> {
    Filter((event: Event) => event.sequence < trigger.sequence && EventMatches(event, matcher), events)
  }

  /** The last of the events with the greatest sequence number. */
  function LatestBySequence(events: seq<Event>): (latest: Event)
    requires events != []
    ensures latest in events
    ensures forall event | event in events :: event.sequence <= latest.sequence
  {
    if |events| == 1 then events[0]
    else
      assert events == [events[0]] + events[1..];
      var rest := LatestBySequence(events[1..]);
      if events[0].sequence > rest.sequence then events[0] else rest
  }

  function EvaluateAssertion(assertion: Assertion, trigger: Event, evidence: EvidenceBundle): Outcome {
    match assertion
    case ExistsBefore(matcher) =>
      var earlier := Earlier(evidence.events, trigger, matcher);
      if earlier == [] then Violated([]) else Holds([LatestBySequence(earlier).id])
    case Absent(matcher) =>
      var matching := Matching(evidence.events, matcher);
      if matching == [] then Holds([]) else Violated(Ids(matching))
    case MaxCount(matcher, count) =>
      var matching := Matching(evidence.events, matcher);
      if |matching| <= count then Holds(Ids(matching)) else Violated(Ids(matching))
    case TerminalState(state) =>
      if trigger.endedAt.None? then Unobservable
      else if StateMatches(state, evidence) then Holds([trigger.id])
      else Violated([])
  }

  /** Where the scan of triggers and assertions ends, with everything cited up to there. */
  datatype Scan = Clear(cited: seq<EventId>) | StoppedViolated(cited: seq<EventId>) | StoppedUnobservable

  function ScanAssertions(assertions: seq<Assertion>, trigger: Event, evidence: EvidenceBundle, cited: seq<EventId>): Scan
    decreases |assertions|
  {
    if assertions == [] then Clear(cited)
    else
      match EvaluateAssertion(assertions[0], trigger, evidence)
      case Holds(ids) => ScanAssertions(assertions[1..], trigger, evidence, cited + ids)
      case Violated(ids) => StoppedViolated(cited + ids)
      case Unobservable => StoppedUnobservable
  }

  function ScanTriggers(triggers: seq<Event>, assertions: seq<Assertion>, evidence: EvidenceBundle, cited: seq<EventId>): Scan
    decreases |triggers|
  {
    if triggers == [] then Clear(cited)
    else
      match ScanAssertions(assertions, triggers[0], evidence, cited + [triggers[0].id])
      case Clear(more) => ScanTriggers(triggers[1..], assertions, evidence, more)
      case stopped => stopped
  }

  function MissingStatus(policy: MissingEvidencePolicy): RuleStatus {
    match policy
    case ReportNotObservable => NotObservable
    case ReportFail => Failed
    case ReportError => Errored
  }

  function Report(rule: CompiledRule, status: RuleStatus, cited: seq<EventId>): RuleResult {
    RuleResult(rule.id, rule.severity, status, cited)
  }

  function MissingResult(rule: CompiledRule): RuleResult {
    Report(rule, MissingStatus(rule.onMissingEvidence), [])
  }

  function Triggers(rule: CompiledRule, evidence: EvidenceBundle): seq<Event> {
    Matching(evidence.events, rule.trigger)
  }

  function Judge(rule: CompiledRule, scan: Scan): RuleResult {
    match scan
    case Clear(cited) => Report(rule, Passed, SortDedup(cited))
    case StoppedViolated(cited) => Report(rule, Failed, SortDedup(cited))
    case StoppedUnobservable => MissingResult(rule)
  }

  /** What `EvaluateRule` computes, as a function. */
  function RuleOutcome(rule: CompiledRule, evidence: EvidenceBundle, parse: Parser): RuleResult {
    if evidence.traceQuality == Insufficient || !AllEvidencePresent(rule, evidence, parse) then MissingResult(rule)
    else Judge(rule, ScanTriggers(Triggers(rule, evidence), rule.assertions, evidence, []))
  }

  method EvaluateRule(rule: CompiledRule, evidence: EvidenceBundle, parse: Parser) returns (result: RuleResult)
    ensures result == RuleOutcome(rule, evidence, parse)
  {
    if evidence.traceQuality == Insufficient {
      return MissingResult(rule);
    }
    var missing := Filter(requirement => !HasRequiredEvidence(requirement, evidence, parse), rule.evidenceRequired);
    if missing != [] {
      assert missing[0] in missing;
      return MissingResult(rule);
    }
    assert AllEvidencePresent(rule, evidence, parse) by {
      assert forall requirement :: requirement !in missing;
    }
    result := CheckTriggers(rule, evidence);
  }

  /** The nested loops with their early exits, growing `cited` and canonicalising it on the way out. */
  method CheckTriggers(rule: CompiledRule, evidence: EvidenceBundle) returns (result: RuleResult)
    ensures result == Judge(rule, ScanTriggers(Triggers(rule, evidence), rule.assertions, evidence, []))
  {
    var triggers := Triggers(rule, evidence);
    if triggers == [] {
      return Report(rule, Passed, []);
    }
    ghost var expected := ScanTriggers(triggers, rule.assertions, evidence, []);
    var cited: seq<EventId> := [];
    for i := 0 to |triggers|
      invariant expected == ScanTriggers(triggers[i..], rule.assertions, evidence, cited)
    {
      cited := cited + [triggers[i].id];
      ghost var scan := ScanAssertions(rule.assertions, triggers[i], evidence, cited);
      assert triggers[i..][1..] == triggers[i + 1..];
      for j := 0 to |rule.assertions|
        invariant scan == ScanAssertions(rule.assertions[j..], triggers[i], evidence, cited)
      {
        assert rule.assertions[j..][1..] == rule.assertions[j + 1..];
        var outcome := EvaluateAssertion(rule.assertions[j], triggers[i], evidence);
        match outcome
        case Holds(ids) =>
          cited := cited + ids;
        case Violated(ids) =>
          cited := cited + ids;
          return Report(rule, Failed, SortDedup(cited));
        case Unobservable =>
          return MissingResult(rule);
      }
    }
    return Report(rule, Passed, SortDedup(cited));
  }

  datatype EvaluationSummary = EvaluationSummary(
    verdict: RunVerdict, results: seq<RuleResult>, passed: nat, failed: nat, inconclusive: nat)

  function Results(rules: seq<CompiledRule>, evidence: EvidenceBundle, parse: Parser): (results: seq<RuleResult>)
    ensures |results| == |rules|
    ensures forall i :: 0 <= i < |rules| ==> results[i] == RuleOutcome(rules[i], evidence, parse)
  {
    seq(|rules|, i requires 0 <= i < |rules| => RuleOutcome(rules[i], evidence, parse))
  }

  predicate Blocking(result: RuleResult) {
    result.status == Failed && (result.severity == Critical || result.severity == High)
  }

  /** Subtraction that stops at zero. */
  function SaturatingSub(a: nat, b: nat): nat {
    if a >= b then a - b else 0
  }

  function Summarize(results: seq<RuleResult>): EvaluationSummary {
    var passed := |Filter((result: RuleResult) => result.status == Passed, results)|;
    var failed := |Filter((result: RuleResult) => result.status == Failed, results)|;
    var inconclusive := SaturatingSub(|results|, passed + failed);
    var verdict :=
      if exists result | result in results :: Blocking(result) then RunVerdict.Fail
      else if inconclusive > 0 then RunVerdict.Inconclusive
      else RunVerdict.Pass;
    EvaluationSummary(verdict, results, passed, failed, inconclusive)
  }

  function EvaluatePack(rules: seq<CompiledRule>, evidence: EvidenceBundle, parse: Parser): EvaluationSummary {
    Summarize(Results(rules, evidence, parse))
  }
}
