/** What the evaluator's answers mean, and how they react to more, fewer or reordered inputs. */
module EvaluatorLaws {
  import opened Wrappers
  import opened Sequences
  import opened Text
  import opened Evidence
  import opened Evaluator

  // ---------------------------------------------------------------- the declarative meaning

  ghost predicate Satisfied(assertion: Assertion, trigger: Event, evidence: EvidenceBundle) {
    match assertion
    case ExistsBefore(matcher) =>
      exists event | event in evidence.events :: event.sequence < trigger.sequence && EventMatches(event, matcher)
    case Absent(matcher) => forall event | event in evidence.events :: !EventMatches(event, matcher)
    case MaxCount(matcher, count) => |Matching(evidence.events, matcher)| <= count
    case TerminalState(state) => trigger.endedAt.Some? && StateMatches(state, evidence)
  }

  /** Only an unfinished trigger of a terminal-state assertion is unobservable. */
  ghost predicate Undecidable(assertion: Assertion, trigger: Event) {
    assertion.TerminalState? && trigger.endedAt.None?
  }

  lemma NonEmptyMember(s: seq<Event>)
    ensures s != [] ==> exists event :: event in s
  {
    if s != [] {
      assert s[0] in s;
    }
  }

  lemma AssertionMeaning(assertion: Assertion, trigger: Event, evidence: EvidenceBundle)
    ensures EvaluateAssertion(assertion, trigger, evidence).Holds? <==> Satisfied(assertion, trigger, evidence)
    ensures EvaluateAssertion(assertion, trigger, evidence).Unobservable? <==> Undecidable(assertion, trigger)
  {
    match assertion
    case ExistsBefore(matcher) =>
      NonEmptyMember(Earlier(evidence.events, trigger, matcher));
    case Absent(matcher) =>
      NonEmptyMember(Matching(evidence.events, matcher));
    case _ =>
  }

  // ---------------------------------------------------------------- where the scan stops

  function At(triggers: seq<Event>, assertions: seq<Assertion>, evidence: EvidenceBundle, i: nat, j: nat): Outcome
    requires i < |triggers| && j < |assertions|
  {
    EvaluateAssertion(assertions[j], triggers[i], evidence)
  }

  predicate Precedes(i: nat, j: nat, i': nat, j': nat) {
    i < i' || (i == i' && j < j')
  }

  /** Every pair visited before `(i, j)` held, and `cited` covers those pairs and their triggers. */
  ghost predicate HeldBefore(
    triggers: seq<Event>, assertions: seq<Assertion>, evidence: EvidenceBundle, i: nat, j: nat, cited: seq<EventId>)
  {
    && (forall p: nat, q: nat | p < |triggers| && q < |assertions| && Precedes(p, q, i, j) ::
          && At(triggers, assertions, evidence, p, q).Holds?
          && forall id | id in At(triggers, assertions, evidence, p, q).cited :: id in cited)
    && (forall p: nat | p < |triggers| && p < i :: triggers[p].id in cited)
  }

  /** The scan stops at the first pair that does not hold, or runs off the end. */
  lemma ScanStop(triggers: seq<Event>, assertions: seq<Assertion>, evidence: EvidenceBundle)
    returns (i: nat, j: nat, cited: seq<EventId>)
    ensures HeldBefore(triggers, assertions, evidence, i, j, cited)
    ensures
      match ScanTriggers(triggers, assertions, evidence, [])
      case Clear(c) => i == |triggers| && c == cited
      case StoppedViolated(c) =>
        && i < |triggers| && j < |assertions| && triggers[i].id in cited
        && At(triggers, assertions, evidence, i, j).Violated?
        && c == cited + At(triggers, assertions, evidence, i, j).cited
      case StoppedUnobservable =>
        i < |triggers| && j < |assertions| && At(triggers, assertions, evidence, i, j).Unobservable?
  {
    var expected := ScanTriggers(triggers, assertions, evidence, []);
    cited := [];
    i, j := 0, 0;
    while i < |triggers|
      invariant i <= |triggers| && j == 0
      invariant expected == ScanTriggers(triggers[i..], assertions, evidence, cited)
      invariant HeldBefore(triggers, assertions, evidence, i, 0, cited)
    {
      cited := cited + [triggers[i].id];
      var scan := ScanAssertions(assertions, triggers[i], evidence, cited);
      assert triggers[i..][1..] == triggers[i + 1..];
      while j < |assertions|
        invariant j <= |assertions|
        invariant scan == ScanAssertions(assertions[j..], triggers[i], evidence, cited)
        invariant HeldBefore(triggers, assertions, evidence, i, j, cited)
        invariant triggers[i].id in cited
      {
        assert assertions[j..][1..] == assertions[j + 1..];
        var outcome := At(triggers, assertions, evidence, i, j);
        if !outcome.Holds? {
          return;
        }
        cited := cited + outcome.cited;
        j := j + 1;
      }
      i, j := i + 1, 0;
    }
  }

  /**
   * If a pair is violated in `evidence'` and every earlier pair was decided in `evidence` on the same triggers,
   * the scan of `evidence'` ends in a violation.
   */
  lemma ViolationPersists(
    assertions: seq<Assertion>, triggers: seq<Event>, evidence: EvidenceBundle,
    triggers': seq<Event>, evidence': EvidenceBundle, i: nat, j: nat, cited: seq<EventId>)
    requires i < |triggers| && i < |triggers'| && j < |assertions|
    requires HeldBefore(triggers, assertions, evidence, i, j, cited)
    requires triggers'[..i + 1] == triggers[..i + 1]
    requires At(triggers', assertions, evidence', i, j).Violated?
    ensures ScanTriggers(triggers', assertions, evidence', []).StoppedViolated?
  {
    var i', j', cited' := ScanStop(triggers', assertions, evidence');
    if ScanTriggers(triggers', assertions, evidence', []).StoppedUnobservable? {
      AssertionMeaning(assertions[j'], triggers'[i'], evidence');
      if Precedes(i', j', i, j) {
        assert triggers'[i'] == triggers'[..i + 1][i'] == triggers[i'];
        AssertionMeaning(assertions[j'], triggers[i'], evidence);
      }
    }
  }

  // ---------------------------------------------------------------- Pass

  /** Everything `Passed` promises about a rule and the evidence. */
  ghost predicate FullyObservedAndSatisfied(rule: CompiledRule, evidence: EvidenceBundle, parse: Parser) {
    && evidence.traceQuality != Insufficient
    && AllEvidencePresent(rule, evidence, parse)
    && forall trigger, assertion |
         trigger in evidence.events && EventMatches(trigger, rule.trigger) && assertion in rule.assertions ::
         Satisfied(assertion, trigger, evidence)
  }

  /** A rule passes exactly when the trace is usable, its evidence is there and every assertion holds at every trigger. */
  lemma PassMeaning(rule: CompiledRule, evidence: EvidenceBundle, parse: Parser)
    ensures RuleOutcome(rule, evidence, parse).status == Passed
       <==> FullyObservedAndSatisfied(rule, evidence, parse)
  {
    if evidence.traceQuality != Insufficient && AllEvidencePresent(rule, evidence, parse) {
      var triggers := Triggers(rule, evidence);
      var i, j, cited := ScanStop(triggers, rule.assertions, evidence);
      if ScanTriggers(triggers, rule.assertions, evidence, []).Clear? {
        forall trigger, assertion |
          trigger in evidence.events && EventMatches(trigger, rule.trigger) && assertion in rule.assertions
          ensures Satisfied(assertion, trigger, evidence)
        {
          assert trigger in triggers;
          var p: nat :| p < |triggers| && triggers[p] == trigger;
          var q: nat :| q < |rule.assertions| && rule.assertions[q] == assertion;
          assert At(triggers, rule.assertions, evidence, p, q).Holds?;
          AssertionMeaning(assertion, trigger, evidence);
        }
      } else {
        assert triggers[i] in triggers;
        AssertionMeaning(rule.assertions[j], triggers[i], evidence);
      }
    }
  }

  // ---------------------------------------------------------------- reordering

  ghost predicate SameUpToOrder(evidence: EvidenceBundle, evidence': EvidenceBundle) {
    && evidence' == evidence.(events := evidence'.events)
    && multiset(evidence.events) == multiset(evidence'.events)
  }

  lemma ReorderingKeepsObservations(evidence: EvidenceBundle, evidence': EvidenceBundle, parse: Parser)
    requires SameUpToOrder(evidence, evidence')
    ensures forall assertion, trigger :: Satisfied(assertion, trigger, evidence) <==> Satisfied(assertion, trigger, evidence')
    ensures forall rule :: AllEvidencePresent(rule, evidence, parse) <==> AllEvidencePresent(rule, evidence', parse)
  {
    PermutationMembers(evidence.events, evidence'.events);
    forall assertion, trigger
      ensures Satisfied(assertion, trigger, evidence) <==> Satisfied(assertion, trigger, evidence')
    {
      if assertion.MaxCount? {
        FilterPermutation((event: Event) => EventMatches(event, assertion.matcher), evidence.events, evidence'.events);
      }
    }
    forall requirement
      ensures HasRequiredEvidence(requirement, evidence, parse) <==> HasRequiredEvidence(requirement, evidence', parse)
    {
    }
  }

  /** Passing does not depend on the order of the events or of the rule's assertions. */
  lemma PassIgnoresOrder(rule: CompiledRule, rule': CompiledRule, evidence: EvidenceBundle, evidence': EvidenceBundle, parse: Parser)
    requires rule' == rule.(assertions := rule'.assertions)
    requires multiset(rule.assertions) == multiset(rule'.assertions)
    requires SameUpToOrder(evidence, evidence')
    ensures RuleOutcome(rule, evidence, parse).status == Passed <==> RuleOutcome(rule', evidence', parse).status == Passed
  {
    PassMeaning(rule, evidence, parse);
    PassMeaning(rule', evidence', parse);
    PermutationMembers(rule.assertions, rule'.assertions);
    PermutationMembers(evidence.events, evidence'.events);
    ReorderingKeepsObservations(evidence, evidence', parse);
  }

  ghost predicate AlwaysObservable(rule: CompiledRule) {
    forall assertion | assertion in rule.assertions :: !assertion.TerminalState?
  }

  /** Without terminal-state assertions there are three outcomes: missing evidence, pass and fail. */
  lemma ObservableStatus(rule: CompiledRule, evidence: EvidenceBundle, parse: Parser)
    requires AlwaysObservable(rule)
    ensures RuleOutcome(rule, evidence, parse).status ==
            if evidence.traceQuality == Insufficient || !AllEvidencePresent(rule, evidence, parse)
            then MissingStatus(rule.onMissingEvidence)
            else if FullyObservedAndSatisfied(rule, evidence, parse) then Passed
            else Failed
  {
    PassMeaning(rule, evidence, parse);
    if evidence.traceQuality != Insufficient && AllEvidencePresent(rule, evidence, parse) {
      var triggers := Triggers(rule, evidence);
      var i, j, cited := ScanStop(triggers, rule.assertions, evidence);
      if ScanTriggers(triggers, rule.assertions, evidence, []).StoppedUnobservable? {
        AssertionMeaning(rule.assertions[j], triggers[i], evidence);
      }
    }
  }

  /** For such rules the whole status, not only `Passed`, is independent of order. */
  lemma StatusIgnoresOrder(rule: CompiledRule, rule': CompiledRule, evidence: EvidenceBundle, evidence': EvidenceBundle, parse: Parser)
    requires rule' == rule.(assertions := rule'.assertions)
    requires multiset(rule.assertions) == multiset(rule'.assertions)
    requires SameUpToOrder(evidence, evidence')
    requires AlwaysObservable(rule)
    ensures RuleOutcome(rule, evidence, parse).status == RuleOutcome(rule', evidence', parse).status
  {
    PermutationMembers(rule.assertions, rule'.assertions);
    ReorderingKeepsObservations(evidence, evidence', parse);
    ObservableStatus(rule, evidence, parse);
    ObservableStatus(rule', evidence', parse);
    PassIgnoresOrder(rule, rule', evidence, evidence', parse);
    PassMeaning(rule, evidence, parse);
    PassMeaning(rule', evidence', parse);
  }

  ghost predicate SomeViolated(rule: CompiledRule, evidence: EvidenceBundle) {
    exists trigger, assertion | trigger in Triggers(rule, evidence) && assertion in rule.assertions ::
      EvaluateAssertion(assertion, trigger, evidence).Violated?
  }

  ghost predicate SomeUnobservable(rule: CompiledRule, evidence: EvidenceBundle) {
    exists trigger, assertion | trigger in Triggers(rule, evidence) && assertion in rule.assertions ::
      EvaluateAssertion(assertion, trigger, evidence).Unobservable?
  }

  predicate Judged(rule: CompiledRule, evidence: EvidenceBundle, parse: Parser) {
    evidence.traceQuality != Insufficient && AllEvidencePresent(rule, evidence, parse)
  }

  /** The scan stops where it does because there is such a pair, and runs through only if there is none of either kind. */
  lemma StopsForAReason(rule: CompiledRule, evidence: EvidenceBundle)
    ensures match ScanTriggers(Triggers(rule, evidence), rule.assertions, evidence, [])
            case Clear(_) => !SomeViolated(rule, evidence) && !SomeUnobservable(rule, evidence)
            case StoppedViolated(_) => SomeViolated(rule, evidence)
            case StoppedUnobservable => SomeUnobservable(rule, evidence)
  {
    var triggers := Triggers(rule, evidence);
    var i, j, cited := ScanStop(triggers, rule.assertions, evidence);
    if ScanTriggers(triggers, rule.assertions, evidence, []).Clear? {
      forall trigger, assertion | trigger in triggers && assertion in rule.assertions
        ensures EvaluateAssertion(assertion, trigger, evidence).Holds?
      {
        var p: nat :| p < |triggers| && triggers[p] == trigger;
        var q: nat :| q < |rule.assertions| && rule.assertions[q] == assertion;
        assert At(triggers, rule.assertions, evidence, p, q).Holds?;
      }
    } else {
      assert triggers[i] in triggers && rule.assertions[j] in rule.assertions;
      assert At(triggers, rule.assertions, evidence, i, j)
          == EvaluateAssertion(rule.assertions[j], triggers[i], evidence);
    }
  }

  /** The same rule and trace with assertions and events in another order. */
  ghost predicate Rearranged(rule: CompiledRule, evidence: EvidenceBundle, rule': CompiledRule, evidence': EvidenceBundle) {
    && rule' == rule.(assertions := rule'.assertions)
    && multiset(rule.assertions) == multiset(rule'.assertions)
    && SameUpToOrder(evidence, evidence')
  }

  lemma RearrangingKeepsPairs(rule: CompiledRule, evidence: EvidenceBundle, rule': CompiledRule, evidence': EvidenceBundle, parse: Parser)
    requires Rearranged(rule, evidence, rule', evidence')
    ensures SomeViolated(rule, evidence) <==> SomeViolated(rule', evidence')
    ensures SomeUnobservable(rule, evidence) <==> SomeUnobservable(rule', evidence')
    ensures Judged(rule, evidence, parse) <==> Judged(rule', evidence', parse)
  {
    PermutationMembers(rule.assertions, rule'.assertions);
    PermutationMembers(evidence.events, evidence'.events);
    ReorderingKeepsObservations(evidence, evidence', parse);
    forall assertion, trigger
      ensures EvaluateAssertion(assertion, trigger, evidence).Violated?
         <==> EvaluateAssertion(assertion, trigger, evidence').Violated?
      ensures EvaluateAssertion(assertion, trigger, evidence).Unobservable?
         <==> EvaluateAssertion(assertion, trigger, evidence').Unobservable?
    {
      AssertionMeaning(assertion, trigger, evidence);
      AssertionMeaning(assertion, trigger, evidence');
    }
    assert forall trigger :: trigger in Triggers(rule, evidence) <==> trigger in Triggers(rule', evidence');
  }

  /** Order cannot matter when evidence is missing, when one kind of obstacle is absent, or when both mean failure. */
  predicate MissingMeansFailure(rule: CompiledRule) {
    MissingStatus(rule.onMissingEvidence) == Failed
  }

  lemma StatusFromPairs(rule: CompiledRule, evidence: EvidenceBundle, parse: Parser)
    ensures var status := RuleOutcome(rule, evidence, parse).status;
            && (!Judged(rule, evidence, parse) ==> status == MissingStatus(rule.onMissingEvidence))
            && (Judged(rule, evidence, parse) && !SomeUnobservable(rule, evidence) ==>
                  status == if SomeViolated(rule, evidence) then Failed else Passed)
            && (Judged(rule, evidence, parse) && !SomeViolated(rule, evidence) && SomeUnobservable(rule, evidence) ==>
                  status == MissingStatus(rule.onMissingEvidence))
            && (Judged(rule, evidence, parse) && SomeViolated(rule, evidence) && SomeUnobservable(rule, evidence) ==>
                  status == Failed || status == MissingStatus(rule.onMissingEvidence))
  {
    StopsForAReason(rule, evidence);
  }

  function ToFront<T>(s: seq<T>, i: nat): seq<T>
    requires i < |s|
  {
    [s[i]] + RemoveAt(s, i)
  }

  lemma ToFrontIsRearranged(rule: CompiledRule, evidence: EvidenceBundle, i: nat, j: nat)
    requires i < |evidence.events| && j < |rule.assertions|
    ensures Rearranged(rule, evidence, rule.(assertions := ToFront(rule.assertions, j)),
                       evidence.(events := ToFront(evidence.events, i)))
  {
    RemoveAtContents(evidence.events, i);
    RemoveAtContents(rule.assertions, j);
  }

  /** Whatever pair comes first decides, unless it holds. */
  lemma FirstPairDecides(rule: CompiledRule, evidence: EvidenceBundle, parse: Parser)
    requires evidence.events != [] && rule.assertions != [] && EventMatches(evidence.events[0], rule.trigger)
    requires Judged(rule, evidence, parse)
    ensures match EvaluateAssertion(rule.assertions[0], evidence.events[0], evidence)
            case Violated(_) => RuleOutcome(rule, evidence, parse).status == Failed
            case Unobservable => RuleOutcome(rule, evidence, parse).status == MissingStatus(rule.onMissingEvidence)
            case Holds(_) => true
  {
    assert Triggers(rule, evidence)[0] == evidence.events[0];
  }

  /** Bringing a pair to the front makes the rule answer as that pair does. */
  lemma PairToFront(
    rule: CompiledRule, evidence: EvidenceBundle, parse: Parser, trigger: Event, assertion: Assertion)
    returns (rule': CompiledRule, evidence': EvidenceBundle)
    requires Judged(rule, evidence, parse)
    requires trigger in Triggers(rule, evidence) && assertion in rule.assertions
    requires !EvaluateAssertion(assertion, trigger, evidence).Holds?
    ensures Rearranged(rule, evidence, rule', evidence')
    ensures RuleOutcome(rule', evidence', parse).status ==
            if EvaluateAssertion(assertion, trigger, evidence).Violated? then Failed
            else MissingStatus(rule.onMissingEvidence)
  {
    var i: nat :| i < |evidence.events| && evidence.events[i] == trigger;
    var j: nat :| j < |rule.assertions| && rule.assertions[j] == assertion;
    rule', evidence' := rule.(assertions := ToFront(rule.assertions, j)), evidence.(events := ToFront(evidence.events, i));
    ToFrontIsRearranged(rule, evidence, i, j);
    RearrangingKeepsPairs(rule, evidence, rule', evidence', parse);
    ReorderingKeepsObservations(evidence, evidence', parse);
    AssertionMeaning(assertion, trigger, evidence);
    AssertionMeaning(assertion, trigger, evidence');
    FirstPairDecides(rule', evidence', parse);
  }

  ghost predicate OrderIsIrrelevant(rule: CompiledRule, evidence: EvidenceBundle, parse: Parser) {
    forall rule', evidence' | Rearranged(rule, evidence, rule', evidence') ::
      RuleOutcome(rule', evidence', parse).status == RuleOutcome(rule, evidence, parse).status
  }

  /**
   * Exactly when the status is the same for every order of events and assertions: evidence is missing, or no
   * pair is violated, or no pair is unobservable, or missing evidence counts as failure anyway.
   */
  lemma OrderIsIrrelevantIff(rule: CompiledRule, evidence: EvidenceBundle, parse: Parser)
    ensures OrderIsIrrelevant(rule, evidence, parse) <==>
              || !Judged(rule, evidence, parse)
              || !SomeViolated(rule, evidence) || !SomeUnobservable(rule, evidence)
              || MissingMeansFailure(rule)
  {
    if !Judged(rule, evidence, parse) || !SomeViolated(rule, evidence) || !SomeUnobservable(rule, evidence)
       || MissingMeansFailure(rule)
    {
      forall rule', evidence' | Rearranged(rule, evidence, rule', evidence')
        ensures RuleOutcome(rule', evidence', parse).status == RuleOutcome(rule, evidence, parse).status
      {
        RearrangingKeepsPairs(rule, evidence, rule', evidence', parse);
        StatusFromPairs(rule, evidence, parse);
        StatusFromPairs(rule', evidence', parse);
      }
    } else {
      var t, a :| t in Triggers(rule, evidence) && a in rule.assertions && EvaluateAssertion(a, t, evidence).Violated?;
      var u, b :| u in Triggers(rule, evidence) && b in rule.assertions && EvaluateAssertion(b, u, evidence).Unobservable?;
      var rule1, evidence1 := PairToFront(rule, evidence, parse, t, a);
      var rule2, evidence2 := PairToFront(rule, evidence, parse, u, b);
    }
  }

  lemma MatchingPair(a: Event, b: Event, matcher: EventMatcher)
    ensures Matching([a, b], matcher)
         == (if EventMatches(a, matcher) then [a] else []) + (if EventMatches(b, matcher) then [b] else [])
  {
    var p := (event: Event) => EventMatches(event, matcher);
    assert Filter(p, [a, b]) == (if p(a) then [a] else []) + Filter(p, [b]);
    assert [a, b][1..] == [b];
    assert Filter(p, [b]) == (if p(b) then [b] else []) + Filter(p, []);
  }

  /** A rule about a terminal state alone. */
  predicate AsksForState(rule: CompiledRule, state: string) {
    rule.assertions == [TerminalState(state)] && rule.evidenceRequired == [] && rule.onMissingEvidence == ReportNotObservable
  }

  /**
   * With terminal states the order does matter: of a finished and an unfinished trigger, whichever comes
   * first decides between a failure and an unobservable rule.
   */
  lemma TerminalStateDependsOnOrder(
    rule: CompiledRule, state: string, finished: Event, unfinished: Event, evidence: EvidenceBundle, parse: Parser)
    requires AsksForState(rule, state) && evidence.traceQuality != Insufficient
    requires EventMatches(finished, rule.trigger) && finished.endedAt.Some?
    requires EventMatches(unfinished, rule.trigger) && unfinished.endedAt.None?
    requires evidence.terminalState != Some(state)
    requires ReportedTerminalState(finished) != Some(state) && ReportedTerminalState(unfinished) != Some(state)
    ensures RuleOutcome(rule, evidence.(events := [finished, unfinished]), parse).status == Failed
    ensures RuleOutcome(rule, evidence.(events := [unfinished, finished]), parse).status == NotObservable
  {
    MatchingPair(finished, unfinished, rule.trigger);
    MatchingPair(unfinished, finished, rule.trigger);
  }

  /** A failure over a terminal state is not irrevocable: a later event may still report the state. */
  lemma TerminalStateFailureIsRevocable(
    rule: CompiledRule, state: string, trigger: Event, report: Event, evidence: EvidenceBundle, parse: Parser)
    requires AsksForState(rule, state) && evidence.traceQuality != Insufficient
    requires EventMatches(trigger, rule.trigger) && trigger.endedAt.Some? && !EventMatches(report, rule.trigger)
    requires evidence.terminalState != Some(state) && ReportedTerminalState(trigger) != Some(state)
    requires ReportedTerminalState(report) == Some(state)
    ensures RuleOutcome(rule, evidence.(events := [trigger]), parse).status == Failed
    ensures RuleOutcome(rule, evidence.(events := [trigger, report]), parse).status == Passed
  {
    MatchingPair(trigger, report, rule.trigger);
    FilterOne((event: Event) => EventMatches(event, rule.trigger), trigger);
    assert report in [trigger, report];
    PassMeaning(rule, evidence.(events := [trigger, report]), parse);
  }

  lemma FilterOne(p: Event -> bool, event: Event)
    ensures Filter(p, [event]) == if p(event) then [event] else []
  {
    assert Filter(p, [event]) == (if p(event) then [event] else []) + Filter(p, []);
  }

  // ---------------------------------------------------------------- citations as certificates

  /** The evidence reduced to the cited events. */
  function CitedOnly(evidence: EvidenceBundle, cited: seq<EventId>): EvidenceBundle {
    evidence.(events := Filter((event: Event) => event.id in cited, evidence.events))
  }

  /** The rule with its evidence requirements dropped. */
  function Unconditional(rule: CompiledRule): CompiledRule {
    rule.(evidenceRequired := [])
  }

  lemma {:induction false} FilterKeepsAll(p: Event -> bool, s: seq<Event>)
    requires forall event | event in s :: p(event)
    ensures Filter(p, s) == s
  {
    if s != [] {
      assert s[0] in s;
      assert forall event | event in s[1..] :: event in s;
      FilterKeepsAll(p, s[1..]);
    }
  }

  /** Matching commutes with reducing the evidence to the cited events. */
  lemma MatchingCited(evidence: EvidenceBundle, cited: seq<EventId>, matcher: EventMatcher)
    ensures Matching(CitedOnly(evidence, cited).events, matcher)
         == Filter((event: Event) => event.id in cited, Matching(evidence.events, matcher))
  {
    FilterCommutes(
      (event: Event) => EventMatches(event, matcher), (event: Event) => event.id in cited, evidence.events);
  }

  lemma MatchingCitedAll(evidence: EvidenceBundle, cited: seq<EventId>, matcher: EventMatcher)
    requires forall event | event in Matching(evidence.events, matcher) :: event.id in cited
    ensures Matching(CitedOnly(evidence, cited).events, matcher) == Matching(evidence.events, matcher)
  {
    MatchingCited(evidence, cited, matcher);
    FilterKeepsAll((event: Event) => event.id in cited, Matching(evidence.events, matcher));
  }

  lemma IdsCover(events: seq<Event>, cited: seq<EventId>)
    requires forall id | id in Ids(events) :: id in cited
    ensures forall event | event in events :: event.id in cited
  {
    forall event | event in events ensures event.id in cited {
      var k :| 0 <= k < |events| && events[k] == event;
      assert Ids(events)[k] in Ids(events);
    }
  }

  /** A violated assertion stays violated on the cited events, whatever was cited besides its own witnesses. */
  lemma ViolationOnCited(assertion: Assertion, trigger: Event, evidence: EvidenceBundle, cited: seq<EventId>)
    requires EvaluateAssertion(assertion, trigger, evidence).Violated?
    requires forall id | id in EvaluateAssertion(assertion, trigger, evidence).cited :: id in cited
    ensures EvaluateAssertion(assertion, trigger, CitedOnly(evidence, cited)).Violated?
  {
    AssertionMeaning(assertion, trigger, evidence);
    AssertionMeaning(assertion, trigger, CitedOnly(evidence, cited));
    match assertion
    case Absent(matcher) =>
      IdsCover(Matching(evidence.events, matcher), cited);
      MatchingCitedAll(evidence, cited, matcher);
    case MaxCount(matcher, _) =>
      IdsCover(Matching(evidence.events, matcher), cited);
      MatchingCitedAll(evidence, cited, matcher);
    case _ =>
  }

  /**
   * A failure that cites events is certified by them: evaluating the rule without its evidence
   * requirements on the cited events alone fails again.
   */
  lemma CitedFailureIsCertificate(rule: CompiledRule, evidence: EvidenceBundle, parse: Parser)
    requires RuleOutcome(rule, evidence, parse).status == Failed
    requires RuleOutcome(rule, evidence, parse).cited != []
    ensures var cited := RuleOutcome(rule, evidence, parse).cited;
            RuleOutcome(Unconditional(rule), CitedOnly(evidence, cited), parse).status == Failed
  {
    var triggers := Triggers(rule, evidence);
    var i, j, before := ScanStop(triggers, rule.assertions, evidence);
    var cited := RuleOutcome(rule, evidence, parse).cited;
    CitedTriggers(rule, evidence, cited, i);
    ViolationOnCited(rule.assertions[j], triggers[i], evidence, cited);
    var evidence' := CitedOnly(evidence, cited);
    ViolationPersists(rule.assertions, triggers, evidence, Triggers(rule, evidence'), evidence', i, j, before);
  }

  /** If the first triggers are all cited, the cited events have the same first triggers. */
  lemma CitedTriggers(rule: CompiledRule, evidence: EvidenceBundle, cited: seq<EventId>, i: nat)
    requires i < |Triggers(rule, evidence)|
    requires forall p | 0 <= p <= i :: Triggers(rule, evidence)[p].id in cited
    ensures var triggers, triggers' := Triggers(rule, evidence), Triggers(rule, CitedOnly(evidence, cited));
            i < |triggers'| && triggers'[..i + 1] == triggers[..i + 1] && triggers'[i] == triggers[i]
  {
    var triggers := Triggers(rule, evidence);
    var first, rest := triggers[..i + 1], triggers[i + 1..];
    var keep := (event: Event) => event.id in cited;
    assert triggers == first + rest;
    FilterConcat(keep, first, rest);
    FilterKeepsAll(keep, first);
    MatchingCited(evidence, cited, rule.trigger);
    var triggers' := Triggers(rule, CitedOnly(evidence, cited));
    assert triggers' == first + Filter(keep, rest);
    assert triggers'[i] == first[i];
  }

  /** What a pass claims about terminal states, read on the cited events only. */
  ghost predicate TerminalStatesCited(rule: CompiledRule, evidence: EvidenceBundle, cited: seq<EventId>) {
    Triggers(rule, evidence) == []
    || forall assertion | assertion in rule.assertions && assertion.TerminalState? ::
         StateMatches(assertion.state, CitedOnly(evidence, cited))
  }

  /** A satisfied assertion other than a terminal state stays satisfied on events that include its witnesses. */
  lemma SatisfiedOnCited(assertion: Assertion, trigger: Event, evidence: EvidenceBundle, cited: seq<EventId>)
    requires EvaluateAssertion(assertion, trigger, evidence).Holds?
    requires forall id | id in EvaluateAssertion(assertion, trigger, evidence).cited :: id in cited
    requires !assertion.TerminalState?
    ensures Satisfied(assertion, trigger, CitedOnly(evidence, cited))
  {
    match assertion
    case ExistsBefore(matcher) =>
      var latest := LatestBySequence(Earlier(evidence.events, trigger, matcher));
      assert latest in CitedOnly(evidence, cited).events;
    case Absent(matcher) =>
      AssertionMeaning(assertion, trigger, evidence);
    case MaxCount(matcher, _) =>
      MatchingCited(evidence, cited, matcher);
  }

  /** The citations of a passing rule cover its triggers and every pair's own citations. */
  lemma PassCovers(rule: CompiledRule, evidence: EvidenceBundle, parse: Parser, trigger: Event)
    requires RuleOutcome(rule, evidence, parse).status == Passed
    requires trigger in Triggers(rule, evidence)
    ensures var cited := RuleOutcome(rule, evidence, parse).cited;
            && trigger.id in cited
            && forall assertion | assertion in rule.assertions ::
                 && EvaluateAssertion(assertion, trigger, evidence).Holds?
                 && forall id | id in EvaluateAssertion(assertion, trigger, evidence).cited :: id in cited
  {
    var triggers := Triggers(rule, evidence);
    var i, j, before := ScanStop(triggers, rule.assertions, evidence);
    var p: nat :| p < |triggers| && triggers[p] == trigger;
    forall assertion | assertion in rule.assertions
      ensures EvaluateAssertion(assertion, trigger, evidence).Holds?
      ensures forall id | id in EvaluateAssertion(assertion, trigger, evidence).cited :: id in before
    {
      var q: nat :| q < |rule.assertions| && rule.assertions[q] == assertion;
      assert At(triggers, rule.assertions, evidence, p, q).Holds?;
    }
  }

  lemma SatisfiedOnCitedIff(rule: CompiledRule, evidence: EvidenceBundle, parse: Parser, trigger: Event, assertion: Assertion)
    requires RuleOutcome(rule, evidence, parse).status == Passed
    requires trigger in Triggers(rule, evidence) && assertion in rule.assertions
    ensures var evidence' := CitedOnly(evidence, RuleOutcome(rule, evidence, parse).cited);
            Satisfied(assertion, trigger, evidence') <==>
            (assertion.TerminalState? ==> StateMatches(assertion.state, evidence'))
  {
    PassCovers(rule, evidence, parse, trigger);
    AssertionMeaning(assertion, trigger, evidence);
    if !assertion.TerminalState? {
      SatisfiedOnCited(assertion, trigger, evidence, RuleOutcome(rule, evidence, parse).cited);
    }
  }

  /** Reducing the evidence to a pass's citations keeps exactly its triggers. */
  lemma PassKeepsTriggers(rule: CompiledRule, evidence: EvidenceBundle, parse: Parser)
    requires RuleOutcome(rule, evidence, parse).status == Passed
    ensures var evidence' := CitedOnly(evidence, RuleOutcome(rule, evidence, parse).cited);
            forall event :: event in evidence'.events && EventMatches(event, rule.trigger)
                       <==> event in Triggers(rule, evidence)
  {
    forall event | event in Triggers(rule, evidence)
      ensures event.id in RuleOutcome(rule, evidence, parse).cited
    {
      PassCovers(rule, evidence, parse, event);
    }
  }

  ghost predicate AllSatisfied(triggers: seq<Event>, assertions: seq<Assertion>, evidence: EvidenceBundle) {
    forall trigger, assertion | trigger in triggers && assertion in assertions :: Satisfied(assertion, trigger, evidence)
  }

  lemma MeaningOnCited(rule: CompiledRule, evidence: EvidenceBundle, parse: Parser, cited: seq<EventId>)
    requires RuleOutcome(rule, evidence, parse).status == Passed
    requires cited == RuleOutcome(rule, evidence, parse).cited
    ensures RuleOutcome(Unconditional(rule), CitedOnly(evidence, cited), parse).status == Passed
       <==> AllSatisfied(Triggers(rule, evidence), rule.assertions, CitedOnly(evidence, cited))
  {
    PassMeaning(rule, evidence, parse);
    PassMeaning(Unconditional(rule), CitedOnly(evidence, cited), parse);
    PassKeepsTriggers(rule, evidence, parse);
  }

  lemma CitedStatesDecide(rule: CompiledRule, evidence: EvidenceBundle, parse: Parser, cited: seq<EventId>)
    requires RuleOutcome(rule, evidence, parse).status == Passed
    requires cited == RuleOutcome(rule, evidence, parse).cited
    ensures AllSatisfied(Triggers(rule, evidence), rule.assertions, CitedOnly(evidence, cited))
       <==> TerminalStatesCited(rule, evidence, cited)
  {
    var evidence', triggers := CitedOnly(evidence, cited), Triggers(rule, evidence);
    forall trigger, assertion | trigger in triggers && assertion in rule.assertions
      ensures Satisfied(assertion, trigger, evidence')
         <==> (assertion.TerminalState? ==> StateMatches(assertion.state, evidence'))
    {
      SatisfiedOnCitedIff(rule, evidence, parse, trigger, assertion);
    }
    if triggers != [] {
      assert triggers[0] in triggers;
    }
  }

  /**
   * A pass is certified by its citations exactly when every terminal state the rule asks for is
   * visible on the cited events (or nothing triggered the rule).
   */
  lemma CitedPassIsCertificate(rule: CompiledRule, evidence: EvidenceBundle, parse: Parser, cited: seq<EventId>)
    requires RuleOutcome(rule, evidence, parse).status == Passed
    requires cited == RuleOutcome(rule, evidence, parse).cited
    ensures RuleOutcome(Unconditional(rule), CitedOnly(evidence, cited), parse).status == Passed
       <==> TerminalStatesCited(rule, evidence, cited)
  {
    MeaningOnCited(rule, evidence, parse, cited);
    CitedStatesDecide(rule, evidence, parse, cited);
  }

  /** In particular a pass of a rule without terminal-state assertions is always certified by its citations. */
  lemma CitedPassIsCertificateWithoutTerminalStates(rule: CompiledRule, evidence: EvidenceBundle, parse: Parser)
    requires RuleOutcome(rule, evidence, parse).status == Passed
    requires AlwaysObservable(rule)
    ensures var cited := RuleOutcome(rule, evidence, parse).cited;
            RuleOutcome(Unconditional(rule), CitedOnly(evidence, cited), parse).status == Passed
  {
    CitedPassIsCertificate(rule, evidence, parse, RuleOutcome(rule, evidence, parse).cited);
  }

  /** The identifiers of the events of a trace. */
  predicate FromTrace(ids: seq<EventId>, evidence: EvidenceBundle) {
    forall id | id in ids :: exists event | event in evidence.events :: event.id == id
  }

  lemma IdsFromTrace(events: seq<Event>, evidence: EvidenceBundle)
    requires forall event | event in events :: event in evidence.events
    ensures FromTrace(Ids(events), evidence)
  {
    forall id | id in Ids(events) ensures exists event | event in evidence.events :: event.id == id {
      var k :| 0 <= k < |Ids(events)| && Ids(events)[k] == id;
      assert events[k] in events;
    }
  }

  lemma OutcomeFromTrace(assertion: Assertion, trigger: Event, evidence: EvidenceBundle)
    requires trigger in evidence.events
    ensures var outcome := EvaluateAssertion(assertion, trigger, evidence);
            !outcome.Unobservable? ==> FromTrace(outcome.cited, evidence)
  {
    match assertion
    case Absent(matcher) => IdsFromTrace(Matching(evidence.events, matcher), evidence);
    case MaxCount(matcher, _) => IdsFromTrace(Matching(evidence.events, matcher), evidence);
    case ExistsBefore(matcher) =>
      var earlier := Earlier(evidence.events, trigger, matcher);
      if earlier != [] {
        assert LatestBySequence(earlier) in evidence.events;
      }
    case _ =>
  }

  function CitedBy(scan: Scan): seq<EventId> {
    if scan.StoppedUnobservable? then [] else scan.cited
  }

  lemma {:induction false} AssertionScanFromTrace(
    assertions: seq<Assertion>, trigger: Event, evidence: EvidenceBundle, cited: seq<EventId>)
    requires trigger in evidence.events && FromTrace(cited, evidence)
    ensures FromTrace(CitedBy(ScanAssertions(assertions, trigger, evidence, cited)), evidence)
    decreases |assertions|
  {
    if assertions != [] {
      OutcomeFromTrace(assertions[0], trigger, evidence);
      var outcome := EvaluateAssertion(assertions[0], trigger, evidence);
      if outcome.Holds? {
        AssertionScanFromTrace(assertions[1..], trigger, evidence, cited + outcome.cited);
      }
    }
  }

  lemma {:induction false} TriggerScanFromTrace(
    triggers: seq<Event>, assertions: seq<Assertion>, evidence: EvidenceBundle, cited: seq<EventId>)
    requires FromTrace(cited, evidence) && forall trigger | trigger in triggers :: trigger in evidence.events
    ensures FromTrace(CitedBy(ScanTriggers(triggers, assertions, evidence, cited)), evidence)
    decreases |triggers|
  {
    if triggers != [] {
      assert triggers[0] in triggers;
      assert FromTrace(cited + [triggers[0].id], evidence);
      AssertionScanFromTrace(assertions, triggers[0], evidence, cited + [triggers[0].id]);
      var scan := ScanAssertions(assertions, triggers[0], evidence, cited + [triggers[0].id]);
      if scan.Clear? {
        TriggerScanFromTrace(triggers[1..], assertions, evidence, scan.cited);
      }
    }
  }

  /** Citations are in canonical form and never invented: strictly increasing identifiers of events of the trace. */
  lemma CitationsAreCanonical(rule: CompiledRule, evidence: EvidenceBundle, parse: Parser)
    ensures StrictlyIncreasing(RuleOutcome(rule, evidence, parse).cited)
    ensures FromTrace(RuleOutcome(rule, evidence, parse).cited, evidence)
  {
    TriggerScanFromTrace(Triggers(rule, evidence), rule.assertions, evidence, []);
  }

  // ---------------------------------------------------------------- later events

  /** The evidence with later events appended: none is ordered before an event already there. */
  ghost predicate Extends(evidence: EvidenceBundle, evidence': EvidenceBundle) {
    && |evidence.events| <= |evidence'.events|
    && evidence' == evidence.(events := evidence'.events)
    && evidence'.events[..|evidence.events|] == evidence.events
    && forall event, late | event in evidence.events && late in evidence'.events[|evidence.events|..] ::
         event.sequence <= late.sequence
  }

  /** `(i, j)` is the pair at which the rule fails on `evidence`. */
  ghost predicate FailsAt(rule: CompiledRule, evidence: EvidenceBundle, parse: Parser, i: nat, j: nat) {
    var triggers := Triggers(rule, evidence);
    && evidence.traceQuality != Insufficient
    && AllEvidencePresent(rule, evidence, parse)
    && i < |triggers| && j < |rule.assertions|
    && At(triggers, rule.assertions, evidence, i, j).Violated?
    && exists cited :: HeldBefore(triggers, rule.assertions, evidence, i, j, cited)
  }

  /** Every failure that is not a missing-evidence policy happens at some pair. */
  lemma FailureHasAPair(rule: CompiledRule, evidence: EvidenceBundle, parse: Parser) returns (i: nat, j: nat)
    requires RuleOutcome(rule, evidence, parse).status == Failed
    requires RuleOutcome(rule, evidence, parse).cited != []
    ensures FailsAt(rule, evidence, parse, i, j)
  {
    var cited;
    i, j, cited := ScanStop(Triggers(rule, evidence), rule.assertions, evidence);
  }

  lemma ExtensionKeepsEvidence(rule: CompiledRule, evidence: EvidenceBundle, evidence': EvidenceBundle, parse: Parser)
    requires Extends(evidence, evidence')
    requires AllEvidencePresent(rule, evidence, parse)
    ensures AllEvidencePresent(rule, evidence', parse)
  {
    forall event | event in evidence.events ensures event in evidence'.events {
      assert event in evidence'.events[..|evidence.events|];
    }
    forall requirement | requirement in rule.evidenceRequired
      ensures HasRequiredEvidence(requirement, evidence', parse)
    {
      assert HasRequiredEvidence(requirement, evidence, parse);
    }
  }

  lemma ViolationOnExtension(assertion: Assertion, trigger: Event, evidence: EvidenceBundle, evidence': EvidenceBundle)
    requires Extends(evidence, evidence')
    requires trigger in evidence.events
    requires !assertion.TerminalState?
    requires EvaluateAssertion(assertion, trigger, evidence).Violated?
    ensures EvaluateAssertion(assertion, trigger, evidence').Violated?
  {
    AssertionMeaning(assertion, trigger, evidence);
    AssertionMeaning(assertion, trigger, evidence');
    var later := evidence'.events[|evidence.events|..];
    assert evidence'.events == evidence.events + later;
    FilterConcat((event: Event) => EventMatches(event, assertion.matcher), evidence.events, later);
  }

  /** Later events leave the first triggers as they were. */
  lemma ExtendedTriggers(rule: CompiledRule, evidence: EvidenceBundle, evidence': EvidenceBundle, i: nat)
    requires Extends(evidence, evidence') && i < |Triggers(rule, evidence)|
    ensures var triggers, triggers' := Triggers(rule, evidence), Triggers(rule, evidence');
            && i < |triggers'| && triggers'[..i + 1] == triggers[..i + 1] && triggers'[i] == triggers[i]
            && triggers[i] in evidence.events
  {
    var later := evidence'.events[|evidence.events|..];
    assert evidence'.events == evidence.events + later;
    FilterConcat((event: Event) => EventMatches(event, rule.trigger), evidence.events, later);
    assert Triggers(rule, evidence)[i] in Triggers(rule, evidence);
  }

  /**
   * A violated ordering, absence or count assertion is irrevocable: whatever later events are
   * appended, the rule still fails.
   */
  lemma ViolationIsIrrevocable(
    rule: CompiledRule, evidence: EvidenceBundle, evidence': EvidenceBundle, parse: Parser, i: nat, j: nat)
    requires FailsAt(rule, evidence, parse, i, j)
    requires !rule.assertions[j].TerminalState?
    requires Extends(evidence, evidence')
    ensures RuleOutcome(rule, evidence', parse).status == Failed
  {
    var triggers, triggers' := Triggers(rule, evidence), Triggers(rule, evidence');
    var cited :| HeldBefore(triggers, rule.assertions, evidence, i, j, cited);
    ExtendedTriggers(rule, evidence, evidence', i);
    ExtensionKeepsEvidence(rule, evidence, evidence', parse);
    ViolationOnExtension(rule.assertions[j], triggers[i], evidence, evidence');
    ViolationPersists(rule.assertions, triggers, evidence, triggers', evidence', i, j, cited);
  }

  /** A violated pair comes before every unobservable one. */
  ghost predicate ViolatedFirst(rule: CompiledRule, evidence: EvidenceBundle) {
    var triggers := Triggers(rule, evidence);
    exists i: nat, j: nat | i < |triggers| && j < |rule.assertions| ::
      && At(triggers, rule.assertions, evidence, i, j).Violated?
      && NoneUnobservableBefore(triggers, rule.assertions, evidence, i, j)
  }

  ghost predicate NoneUnobservableBefore(
    triggers: seq<Event>, assertions: seq<Assertion>, evidence: EvidenceBundle, i: nat, j: nat)
  {
    forall p: nat, q: nat | p < |triggers| && q < |assertions| && Precedes(p, q, i, j) ::
      !At(triggers, assertions, evidence, p, q).Unobservable?
  }

  /** Exactly when a rule fails, in terms of its pairs and their order. */
  lemma FailureMeaning(rule: CompiledRule, evidence: EvidenceBundle, parse: Parser)
    ensures RuleOutcome(rule, evidence, parse).status == Failed <==>
              if Judged(rule, evidence, parse)
              then ViolatedFirst(rule, evidence) || (MissingMeansFailure(rule) && SomeUnobservable(rule, evidence))
              else MissingMeansFailure(rule)
  {
    var triggers := Triggers(rule, evidence);
    StopsForAReason(rule, evidence);
    var i, j, cited := ScanStop(triggers, rule.assertions, evidence);
    if ViolatedFirst(rule, evidence) {
      var p: nat, q: nat :| p < |triggers| && q < |rule.assertions|
                            && At(triggers, rule.assertions, evidence, p, q).Violated?
                            && NoneUnobservableBefore(triggers, rule.assertions, evidence, p, q);
      assert triggers[p] in triggers && rule.assertions[q] in rule.assertions;
      assert Precedes(i, j, p, q) || Precedes(p, q, i, j) || (i == p && j == q);
    }
  }

  /** A violated pair, other than one asking for the terminal state `state`, comes before every unobservable one. */
  ghost predicate OtherViolatedFirst(rule: CompiledRule, evidence: EvidenceBundle, state: string) {
    var triggers := Triggers(rule, evidence);
    exists i: nat, j: nat | i < |triggers| && j < |rule.assertions| ::
      && rule.assertions[j] != TerminalState(state)
      && At(triggers, rule.assertions, evidence, i, j).Violated?
      && NoneUnobservableBefore(triggers, rule.assertions, evidence, i, j)
  }

  /**
   * A failure over a terminal state at the pair `(i, j)` under later events: while the state is not reported it
   * persists; once it is, it persists exactly if another violation comes before every unobservable pair, or
   * an unobservable pair counts as failure anyway.
   */
  lemma TerminalStateFailurePersistsIff(
    rule: CompiledRule, evidence: EvidenceBundle, evidence': EvidenceBundle, parse: Parser, i: nat, j: nat)
    requires FailsAt(rule, evidence, parse, i, j) && Extends(evidence, evidence')
    requires rule.assertions[j].TerminalState?
    ensures !StateMatches(rule.assertions[j].state, evidence') ==> RuleOutcome(rule, evidence', parse).status == Failed
    ensures StateMatches(rule.assertions[j].state, evidence') ==>
              (RuleOutcome(rule, evidence', parse).status == Failed <==>
                 || OtherViolatedFirst(rule, evidence', rule.assertions[j].state)
                 || (MissingMeansFailure(rule) && SomeUnobservable(rule, evidence')))
  {
    ExtensionKeepsEvidence(rule, evidence, evidence', parse);
    FailureMeaning(rule, evidence', parse);
    if StateMatches(rule.assertions[j].state, evidence') {
      MatchedStateIsNotViolated(rule, evidence', rule.assertions[j].state);
    } else {
      UnmatchedStateStillFails(rule, evidence, evidence', parse, i, j);
    }
  }

  /** A reported state is never what a rule fails for. */
  lemma MatchedStateIsNotViolated(rule: CompiledRule, evidence: EvidenceBundle, state: string)
    requires StateMatches(state, evidence)
    ensures ViolatedFirst(rule, evidence) <==> OtherViolatedFirst(rule, evidence, state)
  {
    var triggers := Triggers(rule, evidence);
    forall i: nat, j: nat | i < |triggers| && j < |rule.assertions| && rule.assertions[j] == TerminalState(state)
      ensures !At(triggers, rule.assertions, evidence, i, j).Violated?
    {
      AssertionMeaning(rule.assertions[j], triggers[i], evidence);
    }
  }

  lemma UnmatchedStateStillFails(
    rule: CompiledRule, evidence: EvidenceBundle, evidence': EvidenceBundle, parse: Parser, i: nat, j: nat)
    requires FailsAt(rule, evidence, parse, i, j) && Extends(evidence, evidence')
    requires rule.assertions[j].TerminalState? && !StateMatches(rule.assertions[j].state, evidence')
    ensures ViolatedFirst(rule, evidence')
  {
    var triggers, triggers' := Triggers(rule, evidence), Triggers(rule, evidence');
    var cited :| HeldBefore(triggers, rule.assertions, evidence, i, j, cited);
    ExtendedTriggers(rule, evidence, evidence', i);
    AssertionMeaning(rule.assertions[j], triggers[i], evidence);
    AssertionMeaning(rule.assertions[j], triggers[i], evidence');
    assert At(triggers', rule.assertions, evidence', i, j).Violated?;
    forall p: nat, q: nat | p < |triggers'| && q < |rule.assertions| && Precedes(p, q, i, j)
      ensures !At(triggers', rule.assertions, evidence', p, q).Unobservable?
    {
      assert triggers'[p] == triggers'[..i + 1][p] == triggers[p];
      assert At(triggers, rule.assertions, evidence, p, q).Holds?;
      AssertionMeaning(rule.assertions[q], triggers[p], evidence);
      AssertionMeaning(rule.assertions[q], triggers[p], evidence');
    }
  }

  // ---------------------------------------------------------------- the pack verdict

  /** Pass < Inconclusive < Fail. */
  function Gravity(verdict: RunVerdict): nat {
    match verdict
    case Pass => 0
    case Inconclusive => 1
    case Fail => 2
  }

  function Worst(a: RunVerdict, b: RunVerdict): RunVerdict {
    if Gravity(a) >= Gravity(b) then a else b
  }

  predicate Undecided(result: RuleResult) {
    result.status != Passed && result.status != Failed
  }

  /** Passed, failed and undecided results partition the results; the saturating subtraction never saturates. */
  lemma {:induction false} SummaryPartitions(results: seq<RuleResult>)
    ensures var summary := Summarize(results);
            && summary.passed + summary.failed + summary.inconclusive == |results|
            && summary.passed == |Filter((result: RuleResult) => result.status == Passed, results)|
            && summary.failed == |Filter((result: RuleResult) => result.status == Failed, results)|
            && summary.inconclusive == |Filter((result: RuleResult) => Undecided(result), results)|
  {
    if results != [] {
      SummaryPartitions(results[1..]);
    }
  }

  predicate SomeBlocking(results: seq<RuleResult>) {
    exists result | result in results :: Blocking(result)
  }

  predicate SomeUndecided(results: seq<RuleResult>) {
    exists result | result in results :: Undecided(result)
  }

  /** The verdict in words: blocked, undecided somewhere, or clean. */
  lemma VerdictMeaning(results: seq<RuleResult>)
    ensures Summarize(results).verdict ==
            if SomeBlocking(results) then RunVerdict.Fail
            else if SomeUndecided(results) then RunVerdict.Inconclusive
            else RunVerdict.Pass
  {
    SummaryPartitions(results);
    var undecided := Filter((result: RuleResult) => Undecided(result), results);
    if undecided != [] {
      assert undecided[0] in undecided;
    }
  }

  lemma ConcatResults(left: seq<RuleResult>, right: seq<RuleResult>)
    ensures SomeBlocking(left + right) <==> SomeBlocking(left) || SomeBlocking(right)
    ensures SomeUndecided(left + right) <==> SomeUndecided(left) || SomeUndecided(right)
  {
    assert forall result :: result in left + right <==> result in left || result in right;
  }

  lemma ResultsConcat(a: seq<CompiledRule>, b: seq<CompiledRule>, evidence: EvidenceBundle, parse: Parser)
    ensures Results(a + b, evidence, parse) == Results(a, evidence, parse) + Results(b, evidence, parse)
  {
  }

  /** The verdict of a concatenation is the worse of the two verdicts. */
  lemma VerdictIsAJoin(a: seq<CompiledRule>, b: seq<CompiledRule>, evidence: EvidenceBundle, parse: Parser)
    ensures EvaluatePack(a + b, evidence, parse).verdict
         == Worst(EvaluatePack(a, evidence, parse).verdict, EvaluatePack(b, evidence, parse).verdict)
  {
    var left, right := Results(a, evidence, parse), Results(b, evidence, parse);
    ResultsConcat(a, b, evidence, parse);
    VerdictMeaning(left);
    VerdictMeaning(right);
    VerdictMeaning(left + right);
    ConcatResults(left, right);
  }

  /** Selecting some of the rules never makes the verdict worse; so only the set of rules matters. */
  lemma SelectionNeverRaisesVerdict(some: seq<CompiledRule>, all: seq<CompiledRule>, evidence: EvidenceBundle, parse: Parser)
    requires forall rule | rule in some :: rule in all
    ensures Gravity(EvaluatePack(some, evidence, parse).verdict) <= Gravity(EvaluatePack(all, evidence, parse).verdict)
    ensures (forall rule | rule in all :: rule in some) ==>
              EvaluatePack(some, evidence, parse).verdict == EvaluatePack(all, evidence, parse).verdict
  {
    VerdictMeaning(Results(some, evidence, parse));
    VerdictMeaning(Results(all, evidence, parse));
    ResultsCovered(some, all, evidence, parse);
    FewerResults(Results(some, evidence, parse), Results(all, evidence, parse));
    if forall rule | rule in all :: rule in some {
      ResultsCovered(all, some, evidence, parse);
      FewerResults(Results(all, evidence, parse), Results(some, evidence, parse));
    }
  }

  lemma FewerResults(fewer: seq<RuleResult>, more: seq<RuleResult>)
    requires forall result | result in fewer :: result in more
    ensures SomeBlocking(fewer) ==> SomeBlocking(more)
    ensures SomeUndecided(fewer) ==> SomeUndecided(more)
  {
  }

  lemma ResultsCovered(some: seq<CompiledRule>, all: seq<CompiledRule>, evidence: EvidenceBundle, parse: Parser)
    requires forall rule | rule in some :: rule in all
    ensures forall result | result in Results(some, evidence, parse) :: result in Results(all, evidence, parse)
  {
    forall result | result in Results(some, evidence, parse) ensures result in Results(all, evidence, parse) {
      var i :| 0 <= i < |some| && Results(some, evidence, parse)[i] == result;
      assert some[i] in some;
      var k :| 0 <= k < |all| && all[k] == some[i];
      assert Results(all, evidence, parse)[k] == result;
    }
  }

  /** An unusable trace leaves every rule to its missing-evidence policy, with nothing cited. */
  lemma InsufficientTraceVerdict(rules: seq<CompiledRule>, evidence: EvidenceBundle, parse: Parser)
    requires evidence.traceQuality == Insufficient
    requires rules != [] && forall rule | rule in rules :: rule.onMissingEvidence == ReportNotObservable
    ensures EvaluatePack(rules, evidence, parse).verdict == RunVerdict.Inconclusive
    ensures EvaluatePack(rules, evidence, parse).inconclusive == |rules|
  {
    var results := Results(rules, evidence, parse);
    forall i | 0 <= i < |results| ensures results[i] == MissingResult(rules[i]) && Undecided(results[i]) {
      assert rules[i] in rules;
    }
    AllKept((result: RuleResult) => Undecided(result), results);
    SummaryPartitions(results);
    VerdictMeaning(results);
    assert results[0] in results;
  }

  lemma {:induction false} AllKept(p: RuleResult -> bool, results: seq<RuleResult>)
    requires forall i | 0 <= i < |results| :: p(results[i])
    ensures |Filter(p, results)| == |results|
  {
    if results != [] {
      AllKept(p, results[1..]);
    }
  }
}
