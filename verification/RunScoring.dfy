/** Which rules score a run, and what the verdict it shows says about their results. */
module RunScoring {
  import opened Wrappers
  import opened Sequences
  import opened Evidence
  import opened Evaluator
  import opened EvaluatorLaws
  import opened RunDomain
  import opened RunStore
  import opened RunProtocol
  import opened RunInvariant
  import opened RunSafety

  /** No id was requested, or the rule's was. */
  predicate Requested(ruleIds: seq<string>, rule: CompiledRule) {
    ruleIds == [] || rule.id in ruleIds
  }

  lemma {:induction false} WantedByAll(wanted: CompiledRule -> bool, rules: seq<CompiledRule>)
    requires forall rule | rule in rules :: wanted(rule)
    ensures Filter(wanted, rules) == rules
  {
    if rules != [] {
      assert rules[0] in rules;
      assert forall rule | rule in rules[1..] :: rule in rules;
      WantedByAll(wanted, rules[1..]);
    }
  }

  /**
   * The rules a run is scored with are exactly those of the pinned pack that were requested, or all of them if
   * none was requested, each as often as the pack has it and in its order.
   */
  lemma SelectionIsExact(pins: Pins) returns (at: seq<nat>)
    ensures IsSelection((rule: CompiledRule) => Requested(pins.ruleIds, rule), pins.policyContent.rules, Selected(pins), at)
  {
    var wanted := (rule: CompiledRule) => Requested(pins.ruleIds, rule);
    at := FilterSelects(wanted, pins.policyContent.rules);
    if pins.ruleIds == [] {
      WantedByAll(wanted, pins.policyContent.rules);
    } else {
      SameFilter(wanted, (rule: CompiledRule) => rule.id in pins.ruleIds, pins.policyContent.rules);
    }
  }

  lemma {:induction false} SameFilter(p: CompiledRule -> bool, q: CompiledRule -> bool, rules: seq<CompiledRule>)
    requires forall rule | rule in rules :: p(rule) == q(rule)
    ensures Filter(p, rules) == Filter(q, rules)
  {
    if rules != [] {
      assert rules[0] in rules;
      assert forall rule | rule in rules[1..] :: rule in rules;
      SameFilter(p, q, rules[1..]);
    }
  }

  // ---------------------------------------------------------------- the stored results

  /** A result reports on the rule at its position: identity and severity are the rule's. */
  predicate ReportsOn(result: RuleResult, rule: CompiledRule, evidence: EvidenceBundle, parse: Parser) {
    result.ruleId == rule.id && result.severity == rule.severity && result == RuleOutcome(rule, evidence, parse)
  }

  lemma OutcomeReports(rule: CompiledRule, evidence: EvidenceBundle, parse: Parser)
    ensures ReportsOn(RuleOutcome(rule, evidence, parse), rule, evidence, parse)
  {
  }

  /**
   * Whoever saved it, a stored summary has one result for each requested rule of the pinned pack, in the order
   * of the pack, and no other; all of them are about the stored evidence.
   */
  lemma SummaryScoresTheRequested(env: Env, start: World, schedule: seq<Action>) returns (at: seq<nat>)
    requires Initial(start) && Execute(env, start, schedule).store.summary.Some?
    ensures Execute(env, start, schedule).store.bundle.Some?
    ensures var store := Execute(env, start, schedule).store;
            var (pins, results) := (start.store.run.pins, store.summary.value.evaluation.results);
            && StrictlyIncreasing(at) && |at| == |results|
            && (forall k: nat | k < |pins.policyContent.rules| ::
                  k in at <==> Requested(pins.ruleIds, pins.policyContent.rules[k]))
            && forall i | 0 <= i < |at| ::
                 && at[i] < |pins.policyContent.rules|
                 && ReportsOn(results[i], pins.policyContent.rules[at[i]], store.bundle.value, env.parse)
  {
    ScheduleKeeps(env, start, schedule);
    InitialKeeps(env, start);
    ContinuationEvolves(env, start, schedule);
    var pins := start.store.run.pins;
    at := SelectionIsExact(pins);
    forall i | 0 <= i < |at| {
      OutcomeReports(pins.policyContent.rules[at[i]], Execute(env, start, schedule).store.bundle.value, env.parse);
    }
  }

  predicate HasResultFor(results: seq<RuleResult>, id: string) {
    exists result | result in results :: result.ruleId == id
  }

  /** So a run for which rules were requested has results for exactly the requested ids. */
  lemma ResultsAreForTheRequestedIds(env: Env, start: World, schedule: seq<Action>, id: string)
    requires Initial(start) && Execute(env, start, schedule).store.summary.Some?
    ensures var results := Execute(env, start, schedule).store.summary.value.evaluation.results;
            var pins := start.store.run.pins;
            HasResultFor(results, id) <==>
              if pins.ruleIds == [] then exists rule | rule in pins.policyContent.rules :: rule.id == id
              else id in pins.ruleIds
  {
    var at := SummaryScoresTheRequested(env, start, schedule);
    var results := Execute(env, start, schedule).store.summary.value.evaluation.results;
    var pins := start.store.run.pins;
    RequestedAreKnown(start);
    ResultForIff(results, at, pins.policyContent.rules, id);
    assert forall rule | rule in pins.policyContent.rules ::
        exists k: nat :: k < |pins.policyContent.rules| && pins.policyContent.rules[k] == rule;
  }

  /** A run is only created for rules its pack has. */
  lemma RequestedAreKnown(start: World)
    requires Initial(start)
    ensures var pins := start.store.run.pins;
            forall id | id in pins.ruleIds :: exists rule | rule in pins.policyContent.rules :: rule.id == id
  {
  }

  lemma ResultForIff(results: seq<RuleResult>, at: seq<nat>, rules: seq<CompiledRule>, id: string)
    requires |at| == |results| && forall i | 0 <= i < |at| :: at[i] < |rules| && results[i].ruleId == rules[at[i]].id
    ensures HasResultFor(results, id) <==> exists k | k in at :: k < |rules| && rules[k].id == id
  {
    if HasResultFor(results, id) {
      var i :| 0 <= i < |results| && results[i].ruleId == id;
      assert at[i] in at;
    }
    if k :| k in at && k < |rules| && rules[k].id == id {
      var i :| 0 <= i < |at| && at[i] == k;
      assert results[i] in results;
    }
  }

  // ---------------------------------------------------------------- the verdict

  /** The failure of a critical or high rule. */
  predicate Blocks(result: RuleResult) {
    result.status == Failed && result.severity in {Critical, High}
  }

  predicate IsUndecided(result: RuleResult) {
    result.status in {NotObservable, Errored}
  }

  /**
   * What a run's verdict says, in every schedule: it failed if and only if a critical or high rule did; it is
   * inconclusive if and only if none did and some rule is unobservable or in error; else it passed, whatever
   * rules of lower severity failed.
   */
  lemma ShownVerdictMeaning(env: Env, start: World, schedule: seq<Action>)
    requires Initial(start) && Execute(env, start, schedule).store.run.verdict.Some?
    ensures Execute(env, start, schedule).store.summary.Some?
    ensures var store := Execute(env, start, schedule).store;
            var (verdict, results) := (store.run.verdict.value, store.summary.value.evaluation.results);
            && (verdict == RunVerdict.Fail <==> exists result | result in results :: Blocks(result))
            && (verdict == RunVerdict.Inconclusive <==>
                  !(exists result | result in results :: Blocks(result))
                  && exists result | result in results :: IsUndecided(result))
  {
    VerdictIsTheScore(env, start, schedule);
    ScheduleKeeps(env, start, schedule);
    CurrentInHistory(env, Execute(env, start, schedule).store);
    var results := Execute(env, start, schedule).store.summary.value.evaluation.results;
    VerdictOfResults(results);
  }

  lemma VerdictOfResults(results: seq<RuleResult>)
    ensures var verdict := Summarize(results).verdict;
            && (verdict == RunVerdict.Fail <==> exists result | result in results :: Blocks(result))
            && (verdict == RunVerdict.Inconclusive <==>
                  !(exists result | result in results :: Blocks(result))
                  && exists result | result in results :: IsUndecided(result))
  {
    VerdictMeaning(results);
    assert forall result :: Blocking(result) <==> Blocks(result);
    assert forall result :: Undecided(result) <==> IsUndecided(result);
  }

  /** The counters of a stored summary are those of its results. */
  lemma StoredCountsMeaning(env: Env, start: World, schedule: seq<Action>)
    requires Initial(start) && Execute(env, start, schedule).store.summary.Some?
    ensures var evaluation := Execute(env, start, schedule).store.summary.value.evaluation;
            && evaluation.passed == |Filter((result: RuleResult) => result.status == Passed, evaluation.results)|
            && evaluation.failed == |Filter((result: RuleResult) => result.status == Failed, evaluation.results)|
            && evaluation.passed + evaluation.failed + evaluation.inconclusive == |evaluation.results|
  {
    ScheduleKeeps(env, start, schedule);
    SummaryPartitions(Execute(env, start, schedule).store.summary.value.evaluation.results);
  }
}
