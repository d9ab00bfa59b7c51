/** Which events a matcher means, seen from the answer of a rule: names, attributes, numbers and paths. */
module RuleMatching {
  import opened Wrappers
  import opened Sequences
  import opened Text
  import opened Evidence
  import opened Evaluator
  import opened EvaluatorLaws

  // ---------------------------------------------------------------- paths

  function Join(parts: seq<string>, c: char): string
    requires parts != []
  {
    if |parts| == 1 then parts[0] else parts[0] + [c] + Join(parts[1..], c)
  }

  lemma FirstOccurrence(head: string, c: char, tail: string)
    requires c !in head
    ensures SplitOnce(head + [c] + tail, c) == Some((head, tail))
  {
    var s := head + [c] + tail;
    assert s[|head|] == c;
    var (a, b) := SplitOnce(s, c).value;
    assert forall i | 0 <= i < |head| :: s[i] == head[i] != c;
    assert forall i | 0 <= i < |a| :: s[i] == a[i] != c;
    assert s[|a|] == c;
    assert |a| == |head|;
    assert a == s[..|head|] == head && b == s[|head| + 1..] == tail;
  }

  /** Splitting undoes joining, and joining undoes splitting. */
  lemma {:induction false} SplitUndoesJoin(parts: seq<string>, c: char)
    requires parts != [] && forall part | part in parts :: c !in part
    ensures Split(Join(parts, c), c) == parts
  {
    assert parts[0] in parts;
    if |parts| > 1 {
      assert forall part | part in parts[1..] :: part in parts;
      SplitUndoesJoin(parts[1..], c);
      FirstOccurrence(parts[0], c, Join(parts[1..], c));
    }
  }

  lemma {:induction false} JoinUndoesSplit(s: string, c: char)
    ensures Split(s, c) != [] && Join(Split(s, c), c) == s
    decreases |s|
  {
    if SplitOnce(s, c).Some? {
      JoinUndoesSplit(SplitOnce(s, c).value.1, c);
      var (head, tail) := SplitOnce(s, c).value;
      assert Split(s, c)[1..] == Split(tail, c);
    }
  }

  /** Going down from `value` by the given keys, object by object, one arrives at `found`. */
  predicate Leads(value: Value, keys: seq<string>, found: Value) {
    if keys == [] then value == found
    else value.Object? && keys[0] in value.fields && Leads(value.fields[keys[0]], keys[1..], found)
  }

  lemma {:induction false} DescentLeads(value: Value, keys: seq<string>, found: Value)
    ensures Descend(value, keys) == Some(found) <==> Leads(value, keys, found)
    decreases |keys|
  {
    if keys != [] && value.Object? && keys[0] in value.fields {
      DescentLeads(value.fields[keys[0]], keys[1..], found);
    }
  }

  /** A dotted path names what its keys lead to, and nothing else. */
  lemma PathLeads(value: Value, keys: seq<string>, found: Value)
    requires keys != [] && forall key | key in keys :: '.' !in key
    ensures ValueAtPath(value, Join(keys, '.')) == Some(found) <==> Leads(value, keys, found)
  {
    SplitUndoesJoin(keys, '.');
    DescentLeads(value, keys, found);
  }

  // ---------------------------------------------------------------- what decides a match

  /** The event carries the number `n` at the path of the matcher. */
  predicate CarriesNumber(event: Event, matcher: EventMatcher, n: real) {
    matcher.numericArgument.Some? && ValueAtPath(event.input, matcher.numericArgument.value.path) == Some(Number(n))
  }

  /** The event is of the type the matcher asks for, and has its name if it asks for one. */
  predicate IsNamed(event: Event, matcher: EventMatcher) {
    event.eventType == matcher.eventType && (matcher.name == None || matcher.name == Some(event.name))
  }

  predicate HasAttributes(event: Event, matcher: EventMatcher) {
    forall key | key in matcher.attributeEquals :: key in event.attributes && event.attributes[key] == matcher.attributeEquals[key]
  }

  /** An event with the right name and attributes matches exactly if its number exceeds the threshold. */
  lemma NumberDecides(event: Event, matcher: EventMatcher, n: real)
    requires IsNamed(event, matcher) && HasAttributes(event, matcher) && CarriesNumber(event, matcher, n)
    ensures EventMatches(event, matcher) <==> matcher.numericArgument.value.greaterThan < n
  {
  }

  /** So the threshold itself does not match, and a greater number matches whenever a smaller one does. */
  lemma GreaterNumbersMatchToo(event: Event, more: Event, matcher: EventMatcher, n: real, m: real)
    requires CarriesNumber(event, matcher, n) && CarriesNumber(more, matcher, m) && n <= m
    requires more == event.(input := more.input)
    ensures EventMatches(event, matcher) ==> EventMatches(more, matcher)
    ensures n == matcher.numericArgument.value.greaterThan ==> !EventMatches(event, matcher)
  {
  }

  /** Where the path leads to no number there is no match. */
  lemma MatchesCarryANumber(event: Event, matcher: EventMatcher)
    requires matcher.numericArgument.Some? && EventMatches(event, matcher)
    ensures exists n: real :: CarriesNumber(event, matcher, n) && n > matcher.numericArgument.value.greaterThan
  {
    var found := ValueAtPath(event.input, matcher.numericArgument.value.path);
    assert CarriesNumber(event, matcher, found.value.n);
  }

  /** Another type, another name, or another value of an attribute that is asked for: no match. */
  lemma OthersDoNotMatch(event: Event, matcher: EventMatcher)
    requires !IsNamed(event, matcher) || !HasAttributes(event, matcher)
    ensures !EventMatches(event, matcher)
  {
  }

  /** A matcher that asks for less matches more, and without numbers name and attributes are all that counts. */
  lemma LessAskedMoreMatched(event: Event, matcher: EventMatcher, lesser: EventMatcher)
    requires lesser.eventType == matcher.eventType
    requires lesser.name == None || lesser.name == matcher.name
    requires forall key | key in lesser.attributeEquals ::
               key in matcher.attributeEquals && lesser.attributeEquals[key] == matcher.attributeEquals[key]
    requires lesser.numericArgument == None || lesser.numericArgument == matcher.numericArgument
    ensures EventMatches(event, matcher) ==> EventMatches(event, lesser)
    ensures lesser.numericArgument == None ==>
              (EventMatches(event, lesser) <==> IsNamed(event, lesser) && HasAttributes(event, lesser))
  {
  }

  // ---------------------------------------------------------------- what the rule answers

  /** A rule that lets an event of a kind pass a threshold only after another kind of event. */
  predicate GuardsAThreshold(rule: CompiledRule, before: EventMatcher) {
    && rule.trigger.numericArgument.Some? && rule.assertions == [ExistsBefore(before)] && rule.evidenceRequired == []
  }

  /** No event that the rule could mean happened before. */
  predicate NothingBefore(event: Event, events: seq<Event>, before: EventMatcher) {
    forall other | other in events && other.sequence < event.sequence ::
      !IsNamed(other, before) || !HasAttributes(other, before)
  }

  /** Only this event is of the kind that triggers the rule. */
  predicate OnlyCandidate(event: Event, events: seq<Event>, matcher: EventMatcher) {
    event in events && forall other | other in events && other != event :: !IsNamed(other, matcher)
  }

  /**
   * The threshold decides: if the one event of the guarded kind carries the number `n` and nothing that would
   * allow it came before, the rule fails exactly if `n` exceeds the threshold, and passes without citing
   * anything otherwise.
   */
  lemma ThresholdDecides(
    rule: CompiledRule, before: EventMatcher, event: Event, n: real, evidence: EvidenceBundle, parse: Parser)
    requires GuardsAThreshold(rule, before) && evidence.traceQuality != Insufficient
    requires OnlyCandidate(event, evidence.events, rule.trigger) && NothingBefore(event, evidence.events, before)
    requires CarriesNumber(event, rule.trigger, n) && HasAttributes(event, rule.trigger) && IsNamed(event, rule.trigger)
    ensures var result := RuleOutcome(rule, evidence, parse);
            && (result.status == Failed <==> n > rule.trigger.numericArgument.value.greaterThan)
            && (n <= rule.trigger.numericArgument.value.greaterThan ==> result.status == Passed && result.cited == [])
  {
    NumberDecides(event, rule.trigger, n);
    PassMeaning(rule, evidence, parse);
    if n > rule.trigger.numericArgument.value.greaterThan {
      assert event in Triggers(rule, evidence);
      assert !Satisfied(rule.assertions[0], event, evidence);
      ObservableStatus(rule, evidence, parse);
    } else {
      NothingTriggers(rule, evidence);
    }
  }

  lemma NothingTriggers(rule: CompiledRule, evidence: EvidenceBundle)
    requires forall event | event in evidence.events :: !EventMatches(event, rule.trigger)
    ensures Triggers(rule, evidence) == []
  {
    NonEmptyMember(Triggers(rule, evidence));
  }

  /** The rule over refunds: above the threshold they need a decision of the given value that came before. */
  predicate IsRefundRule(rule: CompiledRule, threshold: real, decision: Value) {
    && rule.trigger == EventMatcher(ToolCall, Some("issue_refund"), map[], Some(NumericMatcher("amount", threshold)))
    && rule.assertions ==
         [ExistsBefore(EventMatcher(HumanApprovalDecision, Some("approval"), map["decision" := decision], None))]
    && rule.evidenceRequired == []
  }

  predicate IsRefund(event: Event, amount: real) {
    event.eventType == ToolCall && event.name == "issue_refund" && event.input == Object(map["amount" := Number(amount)])
  }

  predicate IsApproval(event: Event, decision: Value) {
    event.eventType == HumanApprovalDecision && event.name == "approval" && event.attributes == map["decision" := decision]
  }

  lemma AmountIsFound(event: Event, amount: real)
    requires IsRefund(event, amount)
    ensures ValueAtPath(event.input, "amount") == Some(Number(amount))
  {
    var keys := ["amount"];
    assert Join(keys, '.') == "amount";
    assert keys[1..] == [];
    assert Leads(event.input, keys, Number(amount));
    PathLeads(event.input, keys, Number(amount));
  }

  /**
   * A refund with an approval passes, in whichever order the two are listed, exactly if its amount does not
   * exceed the threshold, or the approval came earlier and decided as the rule asks.
   */
  lemma RefundsNeedApproval(
    rule: CompiledRule, threshold: real, asked: Value, refund: Event, amount: real, approval: Event, given: Value,
    evidence: EvidenceBundle, parse: Parser)
    requires IsRefundRule(rule, threshold, asked) && evidence.traceQuality != Insufficient
    requires IsRefund(refund, amount) && IsApproval(approval, given)
    requires evidence.events == [refund, approval] || evidence.events == [approval, refund]
    ensures var status := RuleOutcome(rule, evidence, parse).status;
            && (status == Passed <==> amount <= threshold || (approval.sequence < refund.sequence && given == asked))
            && (status == Failed <==> status != Passed)
  {
    var matcher := rule.assertions[0].matcher;
    AmountIsFound(refund, amount);
    NumberDecides(refund, rule.trigger, amount);
    ApprovalMatchesIff(approval, given, asked);
    OthersDoNotMatch(refund, matcher);
    OthersDoNotMatch(approval, rule.trigger);
    PassMeaning(rule, evidence, parse);
    ObservableStatus(rule, evidence, parse);
    assert forall event :: event in evidence.events <==> event == refund || event == approval;
    RefundIsSatisfiedIff(matcher, refund, approval, evidence);
    assert FullyObservedAndSatisfied(rule, evidence, parse) <==>
             (EventMatches(refund, rule.trigger) ==> Satisfied(rule.assertions[0], refund, evidence));
  }

  lemma ApprovalMatchesIff(approval: Event, given: Value, asked: Value)
    requires IsApproval(approval, given)
    ensures EventMatches(approval, EventMatcher(HumanApprovalDecision, Some("approval"), map["decision" := asked], None))
       <==> given == asked
  {
    var matcher := EventMatcher(HumanApprovalDecision, Some("approval"), map["decision" := asked], None);
    assert "decision" in matcher.attributeEquals;
    LessAskedMoreMatched(approval, matcher, matcher);
  }

  lemma RefundIsSatisfiedIff(matcher: EventMatcher, refund: Event, approval: Event, evidence: EvidenceBundle)
    requires forall event :: event in evidence.events <==> event == refund || event == approval
    requires !EventMatches(refund, matcher)
    ensures Satisfied(ExistsBefore(matcher), refund, evidence) <==>
              approval.sequence < refund.sequence && EventMatches(approval, matcher)
  {
    assert approval in evidence.events;
  }
}
