/** What packs compiled from reviewed policy mean for the runs that are scored with them. */
module EndToEnd {
  import opened Wrappers
  import opened Sequences
  import opened Evidence
  import opened Evaluator
  import opened RunDomain
  import opened RunStore
  import opened RunProtocol
  import opened RunInvariant
  import opened RunSafety
  import opened UseCases
  import opened JobQueue
  import opened Worker
  import opened WorkerSafety
  import opened PolicyReviewLaws

  /** Selecting rules of a sound pack leaves sound rules. */
  lemma {:induction false} FilterKeepsSound(p: CompiledRule -> bool, rules: seq<CompiledRule>)
    requires SoundRules(rules)
    ensures SoundRules(Filter(p, rules))
  {
    if rules != [] {
      assert rules == [rules[0]] + rules[1..];
      FilterKeepsSound(p, rules[1..]);
      var rest := Filter(p, rules[1..]);
      forall k | 0 <= k < |rest| ensures rest[k].id != rules[0].id {
        assert rest[k] in rest;
        var j :| 0 <= j < |rules[1..]| && rules[1..][j] == rest[k];
        assert rules[j + 1] == rest[k];
      }
    }
  }

  lemma SelectionIsSound(pins: Pins)
    requires SoundRules(pins.policyContent.rules)
    ensures SoundRules(Selected(pins))
  {
    if pins.ruleIds != [] {
      FilterKeepsSound((rule: CompiledRule) => rule.id in pins.ruleIds, pins.policyContent.rules);
    }
  }

  /** A run pinned to a sound pack that a timeout completed is inconclusive; such a pack never passes or fails it. */
  lemma SoundPacksNeverJudgeTimeouts(env: Env, start: World, schedule: seq<Action>)
    requires Initial(start) && SoundRules(start.store.run.pins.policyContent.rules)
    ensures var run := Execute(env, start, schedule).store.run;
            run.state == Completed && ByTimeout(run.completionReason) ==> run.verdict == Some(RunVerdict.Inconclusive)
  {
    SelectionIsSound(start.store.run.pins);
    TimedOutRunsAreInconclusive(env, start, schedule);
  }

  /**
   * An evaluation job of a run pinned to a sound pack is refused if and only if the pack repository no
   * longer yields the pinned content; otherwise it completes the run.
   */
  lemma EvaluationCompletesIff(env: Env, settings: Settings, service: Service, id: nat, attempt: nat, input: Input)
    requires ServiceInvariant(env, service)
    requires service.store.run.state == Evaluating && SoundRules(service.store.run.pins.policyContent.rules)
    ensures var (after, outcome) := Dispatch(env, settings, service, EvaluateJob, id, attempt, input);
            && (after.store.run.state == Completed <==> outcome == Worker.Outcome.Finished)
            && (outcome == Worker.Outcome.Finished <==>
                  service.store.summary.Some?
                  || (input.pack.Some? && ContentSha256(input.pack.value) == service.store.run.pins.policyContent))
  {
    var store := service.store;
    CurrentInHistory(env, store);
    assert SoundRun(store, store.run);
    if store.summary.Some? {
      ShowingEnds(store, store.summary.value, input.now);
    } else if input.pack.Some? && ContentSha256(input.pack.value) == store.run.pins.policyContent {
      SelectionIsSound(store.run.pins);
      SoundSummaryIsAccepted(env, store, input);
      var summary := Summary(Score(env, store.run, input.pack.value, store.bundle.value), input.nonce);
      ShowingEnds(SaveSummary(store, summary, input.now).0, summary, input.now);
    }
  }

  lemma SoundSummaryIsAccepted(env: Env, store: Store, input: Input)
    requires store.summary.None? && store.bundle.Some? && input.pack.Some?
    requires ContentSha256(input.pack.value) == store.run.pins.policyContent && SoundRules(Selected(store.run.pins))
    ensures SaveSummary(store, Summary(Score(env, store.run, input.pack.value, store.bundle.value), input.nonce), input.now).1
  {
    var rules := Selected(store.run.pins);
    assert SelectRules(input.pack.value.rules, store.run.pins.ruleIds) == rules;
    var results := Results(rules, store.bundle.value, env.parse);
    assert forall k | 0 <= k < |rules| :: results[k].ruleId == rules[k].id;
  }
}
