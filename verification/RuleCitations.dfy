/** Which events the answer of a rule cites, exactly. */
module RuleCitations {
  import opened Wrappers
  import opened Sequences
  import opened Evidence
  import opened Evaluator
  import opened EvaluatorLaws

  // ---------------------------------------------------------------- one assertion

  /** The event at `k` is the last of those with the greatest sequence number before the trigger that match. */
  predicate IsLatestBefore(events: seq<Event>, trigger: Event, matcher: EventMatcher, k: nat) {
    && k < |events| && events[k].sequence < trigger.sequence && EventMatches(events[k], matcher)
    && forall j: nat | j < |events| && events[j].sequence < trigger.sequence && EventMatches(events[j], matcher) ::
         events[j].sequence < events[k].sequence || (events[j].sequence == events[k].sequence && j <= k)
  }

  predicate IsLatest(events: seq<Event>, k: nat) {
    && k < |events|
    && forall j: nat | j < |events| ::
         events[j].sequence < events[k].sequence || (events[j].sequence == events[k].sequence && j <= k)
  }

  lemma {:induction false} LatestIsLast(events: seq<Event>) returns (k: nat)
    requires events != []
    ensures IsLatest(events, k) && events[k] == LatestBySequence(events)
  {
    if |events| == 1 {
      k := 0;
    } else {
      var rest := LatestIsLast(events[1..]);
      assert forall j | 0 < j < |events| :: events[j] == events[1..][j - 1];
      k := if events[0].sequence > events[1..][rest].sequence then 0 else rest + 1;
    }
  }

  /** An ordering assertion that holds cites the latest event before the trigger that satisfies it. */
  lemma OrderingCitesTheLatest(matcher: EventMatcher, trigger: Event, evidence: EvidenceBundle) returns (k: nat)
    requires EvaluateAssertion(ExistsBefore(matcher), trigger, evidence).Holds?
    ensures IsLatestBefore(evidence.events, trigger, matcher, k)
    ensures EvaluateAssertion(ExistsBefore(matcher), trigger, evidence).cited == [evidence.events[k].id]
  {
    var wanted := (event: Event) => event.sequence < trigger.sequence && EventMatches(event, matcher);
    var earlier := Earlier(evidence.events, trigger, matcher);
    var at := FilterSelects(wanted, evidence.events);
    var i := LatestIsLast(earlier);
    k := at[i];
    LatestOfSelection(wanted, evidence.events, earlier, at, i);
    assert earlier[i] in earlier;
  }

  /** The latest of the selected events is the latest of those that were to be selected. */
  lemma LatestOfSelection(wanted: Event -> bool, events: seq<Event>, kept: seq<Event>, at: seq<nat>, i: nat)
    requires IsSelection(wanted, events, kept, at) && IsLatest(kept, i)
    ensures forall j: nat | j < |events| && wanted(events[j]) ::
              events[j].sequence < events[at[i]].sequence
              || (events[j].sequence == events[at[i]].sequence && j <= at[i])
  {
    forall j: nat | j < |events| && wanted(events[j])
      ensures events[j].sequence < events[at[i]].sequence
              || (events[j].sequence == events[at[i]].sequence && j <= at[i])
    {
      SelectedIff(wanted, events, kept, at, j);
      var m :| 0 <= m < |at| && at[m] == j;
      assert kept[m] == events[j];
    }
  }

  /** The event is one that matches. */
  predicate IsMatch(evidence: EvidenceBundle, matcher: EventMatcher, id: EventId) {
    exists event | event in evidence.events :: EventMatches(event, matcher) && event.id == id
  }

  lemma IdsOfMatches(evidence: EvidenceBundle, matcher: EventMatcher, id: EventId)
    ensures id in Ids(Matching(evidence.events, matcher)) <==> IsMatch(evidence, matcher, id)
  {
    var matching := Matching(evidence.events, matcher);
    if id in Ids(matching) {
      var i :| 0 <= i < |matching| && Ids(matching)[i] == id;
      assert matching[i] in matching;
    }
    if event :| event in evidence.events && EventMatches(event, matcher) && event.id == id {
      var i :| 0 <= i < |matching| && matching[i] == event;
      assert Ids(matching)[i] == id;
    }
  }

  /** Absences and counts cite every match; a terminal state that is reported cites its trigger, one that is not nothing. */
  lemma AssertionCites(assertion: Assertion, trigger: Event, evidence: EvidenceBundle, id: EventId)
    requires !assertion.ExistsBefore? && !EvaluateAssertion(assertion, trigger, evidence).Unobservable?
    ensures id in EvaluateAssertion(assertion, trigger, evidence).cited <==>
              match assertion
              case Absent(matcher) => IsMatch(evidence, matcher, id)
              case MaxCount(matcher, _) => IsMatch(evidence, matcher, id)
              case TerminalState(state) => StateMatches(state, evidence) && id == trigger.id
              case _ => false
  {
    match assertion
    case Absent(matcher) => IdsOfMatches(evidence, matcher, id);
    case MaxCount(matcher, _) => IdsOfMatches(evidence, matcher, id);
    case _ =>
  }

  // ---------------------------------------------------------------- the whole rule

  /** Cited by one of the first `n` assertions at this trigger. */
  predicate CitedAmong(assertions: seq<Assertion>, trigger: Event, evidence: EvidenceBundle, n: nat, id: EventId) {
    exists q | 0 <= q < |assertions| && q < n ::
      var outcome := EvaluateAssertion(assertions[q], trigger, evidence);
      !outcome.Unobservable? && id in outcome.cited
  }

  lemma CitedAmongRest(assertions: seq<Assertion>, trigger: Event, evidence: EvidenceBundle, n: nat, id: EventId)
    requires assertions != []
    ensures CitedAmong(assertions, trigger, evidence, n + 1, id) <==>
              || CitedAmong(assertions[..1], trigger, evidence, 1, id)
              || CitedAmong(assertions[1..], trigger, evidence, n, id)
  {
    assert assertions[..1][0] == assertions[0];
    if q :| 0 <= q < |assertions| && q < n + 1 && !EvaluateAssertion(assertions[q], trigger, evidence).Unobservable?
            && id in EvaluateAssertion(assertions[q], trigger, evidence).cited {
      if q > 0 {
        assert assertions[1..][q - 1] == assertions[q];
      }
    }
    if q :| 0 <= q < |assertions[1..]| && q < n && !EvaluateAssertion(assertions[1..][q], trigger, evidence).Unobservable?
            && id in EvaluateAssertion(assertions[1..][q], trigger, evidence).cited {
      assert assertions[q + 1] == assertions[1..][q];
    }
  }

  lemma {:induction false} ClearScanCites(
    assertions: seq<Assertion>, trigger: Event, evidence: EvidenceBundle, cited: seq<EventId>, id: EventId)
    requires ScanAssertions(assertions, trigger, evidence, cited).Clear?
    ensures id in ScanAssertions(assertions, trigger, evidence, cited).cited <==>
              id in cited || CitedAmong(assertions, trigger, evidence, |assertions|, id)
    decreases |assertions|
  {
    if assertions != [] {
      var ids := EvaluateAssertion(assertions[0], trigger, evidence).cited;
      ClearScanCites(assertions[1..], trigger, evidence, cited + ids, id);
      CitedAmongRest(assertions, trigger, evidence, |assertions| - 1, id);
      CitedByFirst(assertions, trigger, evidence, id);
    }
  }

  lemma CitedByFirst(assertions: seq<Assertion>, trigger: Event, evidence: EvidenceBundle, id: EventId)
    requires assertions != [] && !EvaluateAssertion(assertions[0], trigger, evidence).Unobservable?
    ensures CitedAmong(assertions[..1], trigger, evidence, 1, id) <==>
              id in EvaluateAssertion(assertions[0], trigger, evidence).cited
  {
    assert assertions[..1][0] == assertions[0];
  }

  /** The trigger itself, or what one of the assertions cites at it. */
  predicate CitedAt(assertions: seq<Assertion>, trigger: Event, evidence: EvidenceBundle, id: EventId) {
    id == trigger.id || CitedAmong(assertions, trigger, evidence, |assertions|, id)
  }

  lemma {:induction false} ClearTriggersCite(
    triggers: seq<Event>, assertions: seq<Assertion>, evidence: EvidenceBundle, cited: seq<EventId>, id: EventId)
    requires ScanTriggers(triggers, assertions, evidence, cited).Clear?
    ensures id in ScanTriggers(triggers, assertions, evidence, cited).cited <==>
              id in cited || exists trigger | trigger in triggers :: CitedAt(assertions, trigger, evidence, id)
    decreases |triggers|
  {
    if triggers != [] {
      var once := cited + [triggers[0].id];
      ClearScanCites(assertions, triggers[0], evidence, once, id);
      ClearTriggersCite(triggers[1..], assertions, evidence, ScanAssertions(assertions, triggers[0], evidence, once).cited, id);
      assert forall trigger :: trigger in triggers <==> trigger == triggers[0] || trigger in triggers[1..];
      assert CitedAt(assertions, triggers[0], evidence, id) <==>
               id == triggers[0].id || CitedAmong(assertions, triggers[0], evidence, |assertions|, id);
    }
  }

  /** A pass cites its triggers and everything its assertions cite at them, and nothing else. */
  lemma PassCitesIff(rule: CompiledRule, evidence: EvidenceBundle, parse: Parser, id: EventId)
    requires RuleOutcome(rule, evidence, parse).status == Passed
    ensures id in RuleOutcome(rule, evidence, parse).cited <==>
              exists trigger | trigger in Triggers(rule, evidence) :: CitedAt(rule.assertions, trigger, evidence, id)
  {
    ClearTriggersCite(Triggers(rule, evidence), rule.assertions, evidence, [], id);
  }

  /** Every assertion before `j` holds at the trigger, and `j` is violated there. */
  predicate BreaksAt(assertions: seq<Assertion>, trigger: Event, evidence: EvidenceBundle, j: nat) {
    && j < |assertions| && EvaluateAssertion(assertions[j], trigger, evidence).Violated?
    && forall q: nat | q < j :: EvaluateAssertion(assertions[q], trigger, evidence).Holds?
  }

  lemma {:induction false} StoppedScanCites(
    assertions: seq<Assertion>, trigger: Event, evidence: EvidenceBundle, cited: seq<EventId>, id: EventId)
    returns (j: nat)
    requires ScanAssertions(assertions, trigger, evidence, cited).StoppedViolated?
    ensures BreaksAt(assertions, trigger, evidence, j)
    ensures id in ScanAssertions(assertions, trigger, evidence, cited).cited <==>
              id in cited || CitedAmong(assertions, trigger, evidence, j + 1, id)
    decreases |assertions|
  {
    var outcome := EvaluateAssertion(assertions[0], trigger, evidence);
    CitedByFirst(assertions, trigger, evidence, id);
    if outcome.Violated? {
      j := 0;
      CitedAmongRest(assertions, trigger, evidence, 0, id);
    } else {
      var rest := StoppedScanCites(assertions[1..], trigger, evidence, cited + outcome.cited, id);
      j := rest + 1;
      CitedAmongRest(assertions, trigger, evidence, j, id);
      assert forall q: nat | 0 < q <= j :: assertions[q] == assertions[1..][q - 1];
    }
  }

  predicate CitedBefore(
    triggers: seq<Event>, assertions: seq<Assertion>, evidence: EvidenceBundle, i: nat, id: EventId)
  {
    exists p | 0 <= p < |triggers| && p < i :: CitedAt(assertions, triggers[p], evidence, id)
  }

  lemma CitedBeforeRest(
    triggers: seq<Event>, assertions: seq<Assertion>, evidence: EvidenceBundle, i: nat, id: EventId)
    requires triggers != []
    ensures CitedBefore(triggers, assertions, evidence, i + 1, id) <==>
              CitedAt(assertions, triggers[0], evidence, id) || CitedBefore(triggers[1..], assertions, evidence, i, id)
  {
    if p :| 0 <= p < |triggers| && p < i + 1 && CitedAt(assertions, triggers[p], evidence, id) {
      if p > 0 {
        assert triggers[1..][p - 1] == triggers[p];
      }
    }
    if p :| 0 <= p < |triggers[1..]| && p < i && CitedAt(assertions, triggers[1..][p], evidence, id) {
      assert triggers[p + 1] == triggers[1..][p];
    }
  }

  /** Every assertion holds at every trigger before `i`. */
  predicate AllHoldBefore(triggers: seq<Event>, assertions: seq<Assertion>, evidence: EvidenceBundle, i: nat) {
    forall p, q | 0 <= p < |triggers| && p < i && 0 <= q < |assertions| ::
      EvaluateAssertion(assertions[q], triggers[p], evidence).Holds?
  }

  lemma {:induction false} ClearScanHolds(
    assertions: seq<Assertion>, trigger: Event, evidence: EvidenceBundle, cited: seq<EventId>)
    requires ScanAssertions(assertions, trigger, evidence, cited).Clear?
    ensures forall q | 0 <= q < |assertions| :: EvaluateAssertion(assertions[q], trigger, evidence).Holds?
    decreases |assertions|
  {
    if assertions != [] {
      ClearScanHolds(assertions[1..], trigger, evidence, cited + EvaluateAssertion(assertions[0], trigger, evidence).cited);
      assert forall q | 0 < q < |assertions| :: assertions[q] == assertions[1..][q - 1];
    }
  }

  lemma {:induction false} StoppedTriggersCite(
    triggers: seq<Event>, assertions: seq<Assertion>, evidence: EvidenceBundle, cited: seq<EventId>, id: EventId)
    returns (i: nat, j: nat)
    requires ScanTriggers(triggers, assertions, evidence, cited).StoppedViolated?
    ensures i < |triggers| && AllHoldBefore(triggers, assertions, evidence, i)
    ensures BreaksAt(assertions, triggers[i], evidence, j)
    ensures id in ScanTriggers(triggers, assertions, evidence, cited).cited <==>
              || id in cited
              || CitedBefore(triggers, assertions, evidence, i, id)
              || id == triggers[i].id || CitedAmong(assertions, triggers[i], evidence, j + 1, id)
    decreases |triggers|
  {
    var once := cited + [triggers[0].id];
    var scan := ScanAssertions(assertions, triggers[0], evidence, once);
    if scan.StoppedViolated? {
      i := 0;
      j := StoppedScanCites(assertions, triggers[0], evidence, once, id);
    } else {
      ClearScanCites(assertions, triggers[0], evidence, once, id);
      ClearScanHolds(assertions, triggers[0], evidence, once);
      var rest;
      rest, j := StoppedTriggersCite(triggers[1..], assertions, evidence, scan.cited, id);
      i := rest + 1;
      assert forall p | 0 < p < |triggers| :: triggers[p] == triggers[1..][p - 1];
      CitedBeforeRest(triggers, assertions, evidence, rest, id);
    }
  }

  /**
   * A failure that cites events cites everything up to the first pair of trigger and assertion that does not hold,
   * the pair included, and nothing beyond it.
   */
  lemma FailureCitesIff(rule: CompiledRule, evidence: EvidenceBundle, parse: Parser, id: EventId)
    returns (i: nat, j: nat)
    requires RuleOutcome(rule, evidence, parse).status == Failed && RuleOutcome(rule, evidence, parse).cited != []
    ensures var triggers := Triggers(rule, evidence);
            && i < |triggers| && AllHoldBefore(triggers, rule.assertions, evidence, i)
            && BreaksAt(rule.assertions, triggers[i], evidence, j)
            && (id in RuleOutcome(rule, evidence, parse).cited <==>
                  || CitedBefore(triggers, rule.assertions, evidence, i, id)
                  || id == triggers[i].id || CitedAmong(rule.assertions, triggers[i], evidence, j + 1, id))
  {
    i, j := StoppedTriggersCite(Triggers(rule, evidence), rule.assertions, evidence, [], id);
  }
}
