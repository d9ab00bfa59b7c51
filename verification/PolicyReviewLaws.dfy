/** What every sequence of extraction, review and manual additions keeps, and what compilation can rely on. */
module PolicyReviewLaws {
  import opened Wrappers
  import opened Sequences
  import opened Text
  import opened Evidence
  import opened PolicyReview
  import Evaluator
  import EvaluatorLaws
  import RunStore

  // ---------------------------------------------------------------- the invariant of one import

  lemma ExtractionIsPending(
    imported: Import, document: seq<Segment>, items: seq<ExtractedItem>, ids: seq<string>, now: Time, hash: Hash)
    requires |ids| == |items|
    requires forall id | id in ids :: IsSimpleUuid(id)
    requires forall i, j | 0 <= i < j < |ids| :: ids[i] != ids[j]
    requires ExtractAll(imported, document, items, ids, now, hash).Ok?
    ensures var candidates := ExtractAll(imported, document, items, ids, now, hash).value;
            && DistinctCandidateIds(candidates)
            && (forall candidate | candidate in candidates ::
                  SoundCandidate(candidate) && candidate.status == Pending
                  && exists segment :: segment in document && Contains(segment.text, candidate.excerpt))
  {
    ExtractAllContents(imported, document, items, ids, now, hash);
    var candidates := ExtractAll(imported, document, items, ids, now, hash).value;
    forall i | 0 <= i < |candidates|
      ensures candidates[i].id == ids[i] && SoundCandidate(candidates[i]) && candidates[i].status == Pending
    {
      assert Extracted(imported, document, items[i], ids[i], now, hash) == Ok(candidates[i]);
      assert ids[i] in ids;
    }
  }

  lemma ReviewKeeps(desk: Desk, command: ReviewCommand, now: Time)
    requires SoundDesk(desk) && ReviewCandidate(desk, command, now).Ok?
    ensures SoundDesk(ReviewCandidate(desk, command, now).value)
  {
    var i := IndexOfCandidate(desk.candidates, command.candidateId).value;
    var after := ReviewCandidate(desk, command, now).value;
    assert after.candidates == desk.candidates[i := Reviewed(desk.candidates[i], command, now)];
    forall j | 0 <= j < |after.candidates|
      ensures SoundCandidate(after.candidates[j]) && after.candidates[j].id == desk.candidates[j].id
    {
      assert desk.candidates[j] in desk.candidates;
    }
  }

  lemma ManualKeeps(desk: Desk, command: ManualCommand, id: string, now: Time, hash: Hash)
    requires SoundDesk(desk) && AddManual(desk, command, id, now, hash).Ok?
    requires DrawsFreshIds(desk, AddOne(command, id, now))
    ensures SoundDesk(AddManual(desk, command, id, now, hash).value)
  {
    var candidate := Manual(desk.imported, command, id, now);
    assert SoundCandidate(candidate);
    assert forall i | 0 <= i < |desk.candidates| :: desk.candidates[i] in desk.candidates;
  }

  lemma ExtractKeeps(
    desk: Desk, document: seq<Segment>, items: seq<ExtractedItem>, ids: seq<string>, coverage: Coverage, now: Time, hash: Hash)
    requires SoundDesk(desk) && Act(desk, Extract(document, items, ids, coverage, now), hash).Ok?
    requires DrawsFreshIds(desk, Extract(document, items, ids, coverage, now))
    ensures SoundDesk(Act(desk, Extract(document, items, ids, coverage, now), hash).value)
  {
    ExtractionIsPending(desk.imported, document, items, ids, now, hash);
    var candidates := ExtractAll(desk.imported, document, items, ids, now, hash).value;
    assert candidates != [] ==> candidates[0] in candidates;
  }

  lemma ActKeeps(desk: Desk, action: Action, hash: Hash)
    requires SoundDesk(desk) && DrawsFreshIds(desk, action)
    requires Act(desk, action, hash).Ok?
    ensures SoundDesk(Act(desk, action, hash).value)
  {
    match action
    case Extract(document, items, ids, coverage, now) => ExtractKeeps(desk, document, items, ids, coverage, now, hash);
    case ReviewOne(review, now) => ReviewKeeps(desk, review, now);
    case AddOne(manual, id, now) => ManualKeeps(desk, manual, id, now, hash);
    case _ =>
  }

  ghost predicate AllDrawFreshIds(desk: Desk, actions: seq<Action>, hash: Hash) {
    forall k | 0 <= k < |actions| :: DrawsFreshIds(ActAll(desk, actions[..k], hash), actions[k])
  }

  /**
   * Whatever sequence of operations an import goes through, every approved candidate carries a review, its
   * keys are unique, and while it is in review its state tells exactly whether the review is complete.
   */
  lemma {:induction false} WorkflowKeeps(desk: Desk, actions: seq<Action>, hash: Hash)
    requires SoundDesk(desk) && AllDrawFreshIds(desk, actions, hash)
    ensures SoundDesk(ActAll(desk, actions, hash))
    decreases |actions|
  {
    if actions != [] {
      var n := |actions| - 1;
      assert forall k | 0 <= k < n :: actions[..n][..k] == actions[..k];
      WorkflowKeeps(desk, actions[..n], hash);
      if Act(ActAll(desk, actions[..n], hash), actions[n], hash).Ok? {
        ActKeeps(ActAll(desk, actions[..n], hash), actions[n], hash);
      }
    }
  }

  lemma NewImportIsSound(id: nat, sourceId: Uuid, sourceUrl: Option<string>, contentSha256: string)
    ensures SoundDesk(NewImport(id, sourceId, sourceUrl, contentSha256))
  {
  }

  // ---------------------------------------------------------------- what no operation takes back

  predicate IsReviewed(desk: Desk, id: string) {
    exists candidate | candidate in desk.candidates :: candidate.id == id && candidate.review.Some?
  }

  lemma ActKeepsReviews(desk: Desk, action: Action, hash: Hash, id: string)
    requires IsReviewed(desk, id) && Act(desk, action, hash).Ok?
    ensures IsReviewed(Act(desk, action, hash).value, id)
  {
    var candidate :| candidate in desk.candidates && candidate.id == id && candidate.review.Some?;
    var after := Act(desk, action, hash).value;
    if action.ReviewOne? {
      var i := IndexOfCandidate(desk.candidates, action.review.candidateId).value;
      var k :| 0 <= k < |desk.candidates| && desk.candidates[k] == candidate;
      assert after.candidates[k] in after.candidates;
      assert after.candidates[k].id == id && after.candidates[k].review.Some?;
    } else {
      assert candidate in after.candidates;
    }
  }

  /** Reviews survive everything, failures and repeated extraction included; a compiled pack is never exchanged. */
  lemma {:induction false} ReviewsAndPacksAreKept(desk: Desk, actions: seq<Action>, hash: Hash, id: string)
    ensures IsReviewed(desk, id) ==> IsReviewed(ActAll(desk, actions, hash), id)
    ensures desk.imported.compiledPackId.Some? ==>
              ActAll(desk, actions, hash).imported.compiledPackId == desk.imported.compiledPackId
    decreases |actions|
  {
    if actions != [] {
      var n := |actions| - 1;
      var before := ActAll(desk, actions[..n], hash);
      ReviewsAndPacksAreKept(desk, actions[..n], hash, id);
      if Act(before, actions[n], hash).Ok? && IsReviewed(before, id) {
        ActKeepsReviews(before, actions[n], hash, id);
      }
    }
  }

  lemma ActAllAppend(desk: Desk, actions: seq<Action>, action: Action, hash: Hash)
    ensures var before := ActAll(desk, actions, hash);
            ActAll(desk, actions + [action], hash)
              == match Act(before, action, hash) case Ok(after) => after case Err(_) => before
  {
    assert (actions + [action])[..|actions|] == actions;
  }

  lemma FreshIdsAppend(desk: Desk, actions: seq<Action>, action: Action, hash: Hash)
    requires AllDrawFreshIds(desk, actions, hash) && DrawsFreshIds(ActAll(desk, actions, hash), action)
    ensures AllDrawFreshIds(desk, actions + [action], hash)
  {
    var longer := actions + [action];
    forall k | 0 <= k < |longer| ensures DrawsFreshIds(ActAll(desk, longer[..k], hash), longer[k]) {
      assert longer[..k] == if k < |actions| then actions[..k] else actions;
    }
  }

  /** Appends an action that draws no identifiers. */
  lemma Extend(desk: Desk, actions: seq<Action>, action: Action, hash: Hash) returns (longer: seq<Action>)
    requires AllDrawFreshIds(desk, actions, hash) && DrawsFreshIds(ActAll(desk, actions, hash), action)
    requires Act(ActAll(desk, actions, hash), action, hash).Ok?
    ensures longer == actions + [action]
    ensures AllDrawFreshIds(desk, longer, hash)
    ensures ActAll(desk, longer, hash) == Act(ActAll(desk, actions, hash), action, hash).value
  {
    longer := actions + [action];
    ActAllAppend(desk, actions, action, hash);
    FreshIdsAppend(desk, actions, action, hash);
  }

  /** An import goes through extraction to review with nothing extracted. */
  lemma ReviewCanBeReached(start: Desk, hash: Hash) returns (actions: seq<Action>)
    requires start.imported.status == Uploading && start.candidates == []
    ensures AllDrawFreshIds(start, actions, hash)
    ensures ActAll(start, actions, hash)
         == start.(imported := start.imported.(status := ReviewRequired, coverage := Coverage(1, 1, [])))
  {
    actions := ExtractionCanBeReached(start, hash);
    actions := Extend(start, actions, Extract([], [], [], Coverage(1, 1, []), 0), hash);
  }

  lemma ExtractionCanBeReached(start: Desk, hash: Hash) returns (actions: seq<Action>)
    requires start.imported.status == Uploading
    ensures AllDrawFreshIds(start, actions, hash)
    ensures ActAll(start, actions, hash)
         == start.(imported := start.imported.(status := Extracting, coverage := Coverage(1, 0, [])))
  {
    actions := Extend(start, [], Transition(Uploading, Queued), hash);
    actions := Extend(start, actions, Transition(Queued, Parsing), hash);
    actions := Extend(start, actions, Parsed(1), hash);
  }

  /** From there a manual candidate and a verified source make it ready. */
  lemma ReadinessCanBeReached(start: Desk, before: seq<Action>, manual: ManualCommand, id: string, hash: Hash)
    returns (actions: seq<Action>)
    requires AllDrawFreshIds(start, before, hash) && ValidManual(manual, hash) && IsSimpleUuid(id)
    requires manual.locator.excerptSha256 != []
    requires var desk := ActAll(start, before, hash);
             && desk.candidates == [] && desk.imported.status == ReviewRequired
             && desk.imported.coverage == Coverage(1, 1, []) && desk.imported.compiledPackId.None?
    ensures AllDrawFreshIds(start, actions, hash)
    ensures var desk := ActAll(start, actions, hash);
            && desk.imported.status == ReadyToCompile && desk.imported.compiledPackId.None?
            && desk.candidates == [Manual(ActAll(start, before, hash).imported, manual, id, 0)]
            && ReviewCompleteFor(desk.imported, desk.candidates)
  {
    var candidate := Manual(ActAll(start, before, hash).imported, manual, id, 0);
    assert [] + [candidate] == [candidate];
    actions := Extend(start, before, AddOne(manual, id, 0), hash);
    assert ActAll(start, actions, hash).candidates == [candidate];
    actions := Extend(start, actions, Verify(true), hash);
  }

  /**
   * Recording a failure is not guarded by the state: there is a sequence of permitted operations after which
   * an import is marked as failed although it was compiled, and has its pack.
   */
  lemma CompiledImportCanFail(
    id: nat, sourceId: Uuid, contentSha256: string, manual: ManualCommand, command: CompileCommand, hash: Hash)
    returns (actions: seq<Action>)
    requires ValidManual(manual, hash) && manual.locator.excerptSha256 != []
    requires Trim(command.key) != [] && Trim(command.title) != [] && command.version > 0
    ensures var start := NewImport(id, sourceId, None, contentSha256);
            && AllDrawFreshIds(start, actions, hash)
            && |actions| > 0 && actions[|actions| - 1] == MarkFailure(FailedRetryable)
            && ActAll(start, actions[..|actions| - 1], hash).imported.status == Compiled
            && ActAll(start, actions, hash).imported.status == FailedRetryable
            && ActAll(start, actions, hash).imported.compiledPackId == Some(command.packId)
  {
    var start := NewImport(id, sourceId, None, contentSha256);
    var uuid := "00000000000000000000000000000000";
    var reviewing := ReviewCanBeReached(start, hash);
    var ready := ReadinessCanBeReached(start, reviewing, manual, uuid, hash);
    var candidates := ActAll(start, ready, hash).candidates;
    assert candidates[0] in candidates && IsApproved(candidates[0]);
    actions := CompileThenFail(start, ready, command, hash);
  }

  /** An import that is compiled has a pack: no operation compiles it otherwise. */
  predicate CompiledHasPack(desk: Desk) {
    desk.imported.status == Compiled ==> desk.imported.compiledPackId.Some?
  }

  lemma ActKeepsCompiledHasPack(desk: Desk, action: Action, hash: Hash)
    requires CompiledHasPack(desk) && Act(desk, action, hash).Ok?
    ensures CompiledHasPack(Act(desk, action, hash).value)
  {
  }

  /** The failures that can be recorded, whatever the state. */
  predicate RecordsFailure(action: Action) {
    action.MarkFailure? && action.status in {NeedsOcr, FailedRetryable, FailedTerminal}
  }

  /** A single operation takes a compiled import out of its state exactly if it records a failure. */
  lemma CompiledImportFailsIff(desk: Desk, action: Action, hash: Hash)
    requires desk.imported.status == Compiled && CompiledHasPack(desk)
    ensures (Act(desk, action, hash).Ok? && Act(desk, action, hash).value.imported.status != Compiled)
       <==> RecordsFailure(action)
  {
  }

  /** So every import has, whatever was done to it since its upload. */
  lemma {:induction false} WorkflowHasPack(desk: Desk, actions: seq<Action>, hash: Hash)
    requires CompiledHasPack(desk)
    ensures CompiledHasPack(ActAll(desk, actions, hash))
    decreases |actions|
  {
    if actions != [] {
      var n := |actions| - 1;
      WorkflowHasPack(desk, actions[..n], hash);
      if Act(ActAll(desk, actions[..n], hash), actions[n], hash).Ok? {
        ActKeepsCompiledHasPack(ActAll(desk, actions[..n], hash), actions[n], hash);
      }
    }
  }

  ghost predicate StaysCompiled(desk: Desk, actions: seq<Action>, hash: Hash) {
    forall k | 0 <= k <= |actions| :: ActAll(desk, actions[..k], hash).imported.status == Compiled
  }

  lemma StaysCompiledAppend(desk: Desk, actions: seq<Action>, action: Action, hash: Hash)
    ensures StaysCompiled(desk, actions + [action], hash) <==>
              StaysCompiled(desk, actions, hash) && ActAll(desk, actions + [action], hash).imported.status == Compiled
  {
    var longer := actions + [action];
    assert longer[..|longer|] == longer;
    assert forall k | 0 <= k <= |actions| :: longer[..k] == actions[..k];
  }

  lemma CompiledNext(desk: Desk, actions: seq<Action>, action: Action, hash: Hash)
    requires CompiledHasPack(desk)
    ensures ActAll(desk, actions, hash).imported.status == Compiled ==>
              (ActAll(desk, actions + [action], hash).imported.status == Compiled <==> !RecordsFailure(action))
  {
    var before := ActAll(desk, actions, hash);
    ActAllAppend(desk, actions, action, hash);
    WorkflowHasPack(desk, actions, hash);
    if before.imported.status == Compiled {
      CompiledImportFailsIff(before, action, hash);
    }
  }

  /** Over any sequence of operations a compiled import stays compiled exactly if none records a failure. */
  lemma {:induction false} StaysCompiledIff(desk: Desk, actions: seq<Action>, hash: Hash)
    requires desk.imported.status == Compiled && CompiledHasPack(desk)
    ensures StaysCompiled(desk, actions, hash) <==> forall action | action in actions :: !RecordsFailure(action)
    decreases |actions|
  {
    if actions == [] {
      assert actions[..0] == [];
    } else {
      var n := |actions| - 1;
      var shorter, action := actions[..n], actions[n];
      assert actions == shorter + [action];
      StaysCompiledIff(desk, shorter, hash);
      StaysCompiledAppend(desk, shorter, action, hash);
      CompiledNext(desk, shorter, action, hash);
      if StaysCompiled(desk, shorter, hash) {
        assert shorter[..n] == shorter;
      }
    }
  }

  lemma ReadyImportCompiles(desk: Desk, command: CompileCommand, hash: Hash)
    requires SoundDesk(desk) && desk.imported.status == ReadyToCompile && desk.imported.compiledPackId.None?
    requires exists candidate :: candidate in desk.candidates && IsApproved(candidate)
    requires Trim(command.key) != [] && Trim(command.title) != [] && command.version > 0
    ensures Act(desk, CompileOne(command, 0), hash)
         == Ok(desk.(imported := desk.imported.(
                 status := Compiled, compiledSourceId := Some(command.sourceId), compiledPackId := Some(command.packId))))
  {
    CompilationSucceedsIff(desk, command, 0);
  }

  lemma CompileThenFail(start: Desk, before: seq<Action>, command: CompileCommand, hash: Hash)
    returns (actions: seq<Action>)
    requires SoundDesk(start) && AllDrawFreshIds(start, before, hash)
    requires var desk := ActAll(start, before, hash);
             && desk.imported.status == ReadyToCompile && desk.imported.compiledPackId.None?
             && (exists candidate :: candidate in desk.candidates && IsApproved(candidate))
    requires Trim(command.key) != [] && Trim(command.title) != [] && command.version > 0
    ensures AllDrawFreshIds(start, actions, hash)
    ensures |actions| > 0 && actions[|actions| - 1] == MarkFailure(FailedRetryable)
    ensures ActAll(start, actions[..|actions| - 1], hash).imported.status == Compiled
    ensures ActAll(start, actions, hash).imported.status == FailedRetryable
    ensures ActAll(start, actions, hash).imported.compiledPackId == Some(command.packId)
  {
    WorkflowKeeps(start, before, hash);
    ReadyImportCompiles(ActAll(start, before, hash), command, hash);
    var compiled := Extend(start, before, CompileOne(command, 0), hash);
    actions := Extend(start, compiled, MarkFailure(FailedRetryable), hash);
    assert actions[..|actions| - 1] == compiled;
  }

  // ---------------------------------------------------------------- rule identifiers

  lemma ReplaceConcat(a: string, b: string, from: char, to: char)
    ensures Replace(a + b, from, to) == Replace(a, from, to) + Replace(b, from, to)
    ensures Lower(a + b) == Lower(a) + Lower(b)
  {
  }

  lemma UuidIsUnchanged(id: string)
    requires IsSimpleUuid(id)
    ensures Replace(Lower(id), '-', '_') == id
  {
  }

  /** The last 35 characters of a rule id give the candidate's identifier back. */
  lemma RuleIdEndsWithTheCandidate(prefix: string, candidate: Candidate)
    requires SoundCandidate(candidate)
    ensures var id := RuleId(prefix + candidate.key);
            |id| >= 35 && id[|id| - 35..] == candidate.id + "_v1"
  {
    var kind := candidate.key[..4];
    assert candidate.key == kind + candidate.id;
    assert prefix + candidate.key == (prefix + kind) + candidate.id;
    ReplaceConcat(prefix + kind, candidate.id, '-', '_');
    ReplaceConcat(Lower(prefix + kind), Lower(candidate.id), '-', '_');
    UuidIsUnchanged(candidate.id);
    var id := RuleId(prefix + candidate.key);
    assert id == Replace(Lower(prefix + kind), '-', '_') + (candidate.id + "_v1");
  }

  /** Candidates with different identifiers get different rules, whatever namespaces they are compiled under. */
  lemma RuleIdsAreInjective(prefixA: string, a: Candidate, prefixB: string, b: Candidate)
    requires SoundCandidate(a) && SoundCandidate(b) && a.id != b.id
    ensures RuleId(prefixA + a.key) != RuleId(prefixB + b.key)
  {
    RuleIdEndsWithTheCandidate(prefixA, a);
    RuleIdEndsWithTheCandidate(prefixB, b);
    assert (a.id + "_v1")[..32] == a.id && (b.id + "_v1")[..32] == b.id;
  }

  // ---------------------------------------------------------------- compiling one import

  /** Every item can become an obligation and a rule, and no two candidates are the same. */
  ghost predicate SoundItems(items: seq<Item>) {
    && (forall item | item in items ::
          && HasAllParts(item) && item.candidate.suggestion.value.assertions != []
          && SoundCandidate(item.candidate)
          && exists prefix: string :: item.key == prefix + item.candidate.key)
    && forall i, j | 0 <= i < j < |items| :: items[i].candidate.id != items[j].candidate.id
  }

  lemma {:induction false} ItemsAreSound(sourceId: string, prefix: string, candidates: seq<Candidate>)
    requires forall candidate | candidate in candidates :: SoundCandidate(candidate)
    requires DistinctCandidateIds(candidates) && MappingsReady(candidates)
    ensures SoundItems(ItemsOf(sourceId, prefix, candidates))
  {
    ItemsOfContents(sourceId, prefix, candidates);
    if candidates != [] {
      var rest := candidates[1..];
      ItemsAreSound(sourceId, prefix, rest);
      ItemsOfContents(sourceId, prefix, rest);
      var items := ItemsOf(sourceId, prefix, candidates);
      assert forall k | 0 <= k < |rest| :: candidates[k + 1] == rest[k];
      forall item | item in ItemsOf(sourceId, prefix, rest) ensures item.candidate.id != candidates[0].id {
        assert item.candidate in rest;
      }
      if IsApproved(candidates[0]) {
        assert items == [Item(sourceId, prefix + candidates[0].key, candidates[0])] + ItemsOf(sourceId, prefix, rest);
        assert candidates[0] in candidates && Compilable(candidates[0]) && SoundCandidate(candidates[0]);
      }
    }
  }

  /** A pack the evaluator can work with: never empty, every rule asserts something, ids are unique. */
  ghost predicate SoundRules(rules: seq<CompiledRule>) {
    && (forall rule | rule in rules :: rule.assertions != [] && rule.onMissingEvidence == ReportNotObservable)
    && forall i, j | 0 <= i < j < |rules| :: rules[i].id != rules[j].id
  }

  lemma RulesAreSound(items: seq<Item>)
    requires SoundItems(items)
    ensures SoundRules(RulesOf(items))
  {
    var rules := RulesOf(items);
    forall i, j | 0 <= i < j < |rules| ensures rules[i].id != rules[j].id {
      assert items[i] in items && items[j] in items;
      var a: string :| items[i].key == a + items[i].candidate.key;
      var b: string :| items[j].key == b + items[j].candidate.key;
      RuleIdsAreInjective(a, items[i].candidate, b, items[j].candidate);
    }
  }

  /** Rules and obligations of a bundle belong together one to one, each from its own source. */
  ghost predicate Referenced(bundle: PolicyBundle) {
    && |bundle.obligations| == |bundle.rules|
    && (forall i | 0 <= i < |bundle.rules| ::
          && bundle.rules[i].obligationKey == bundle.obligations[i].key
          && bundle.rules[i].id == RuleId(bundle.obligations[i].key))
    && (forall obligation | obligation in bundle.obligations :: obligation.sourceId in bundle.sources)
  }

  lemma ItemsAreReferenced(items: seq<Item>, sources: seq<string>, firstId: nat)
    requires forall item | item in items :: HasAllParts(item) && item.sourceId in sources
    ensures Referenced(PolicyBundle(sources, ObligationsOf(items, firstId), RulesOf(items)))
  {
    forall obligation | obligation in ObligationsOf(items, firstId) ensures obligation.sourceId in sources {
      var i :| 0 <= i < |items| && ObligationsOf(items, firstId)[i] == obligation;
      assert items[i] in items;
    }
  }

  lemma SomethingToCompile(sourceId: string, candidates: seq<Candidate>)
    ensures ItemsOf(sourceId, "", candidates) != [] <==>
              exists candidate :: candidate in candidates && IsApproved(candidate)
  {
    var items := ItemsOf(sourceId, "", candidates);
    ItemsOfContents(sourceId, "", candidates);
    if items != [] {
      assert items[0] in items;
    }
  }

  lemma ItemsCompile(sourceId: string, candidates: seq<Candidate>, firstId: nat)
    requires forall candidate | candidate in candidates :: SoundCandidate(candidate)
    requires DistinctCandidateIds(candidates) && MappingsReady(candidates)
    ensures var items := ItemsOf(sourceId, "", candidates);
            && (forall item | item in items :: HasAllParts(item))
            && (items != [] <==> exists candidate :: candidate in candidates && IsApproved(candidate))
            && SoundRules(RulesOf(items))
            && Referenced(PolicyBundle([sourceId], ObligationsOf(items, firstId), RulesOf(items)))
  {
    var items := ItemsOf(sourceId, "", candidates);
    ItemsAreSound(sourceId, "", candidates);
    RulesAreSound(items);
    SomethingToCompile(sourceId, candidates);
    assert forall item | item in items :: item.sourceId in [sourceId] by {
      ItemsOfContents(sourceId, "", candidates);
    }
    ItemsAreReferenced(items, [sourceId], firstId);
  }

  /**
   * Compilation of an import that was only ever changed by the workflow succeeds exactly when the command
   * is complete and the import is ready: the errors about missing reviews and missing rules, and the
   * document validation, never strike. What it yields is sound.
   */
  lemma CompilationSucceedsIff(desk: Desk, command: CompileCommand, firstId: nat)
    requires SoundDesk(desk) && desk.imported.compiledPackId.None?
    ensures CompileImport(desk, command, firstId).Ok? <==>
              && Trim(command.key) != [] && Trim(command.title) != [] && command.version > 0
              && desk.imported.status == ReadyToCompile
              && exists candidate :: candidate in desk.candidates && IsApproved(candidate)
    ensures CompileImport(desk, command, firstId).Ok? ==>
              var bundle := CompileImport(desk, command, firstId).value.bundle;
              && bundle.rules != [] && SoundRules(bundle.rules) && Referenced(bundle)
              && bundle.sources == [command.sourceId]
  {
    if ReadyFor(desk.imported, desk.candidates) {
      ItemsCompile(command.sourceId, desk.candidates, firstId);
    }
  }

  // ---------------------------------------------------------------- nothing dropped, nothing invented

  /** The rule is what the reviewers approved. */
  predicate Enforces(rule: CompiledRule, candidate: Candidate) {
    && candidate.suggestion.Some?
    && rule.severity == candidate.severity
    && rule.trigger == candidate.suggestion.value.trigger
    && rule.assertions == candidate.suggestion.value.assertions
    && rule.evidenceRequired == candidate.suggestion.value.evidenceRequired
  }

  /** The obligation is what the source says and who approved it. */
  predicate Documents(obligation: Obligation, candidate: Candidate) {
    && obligation.statement == candidate.statement
    && obligation.locator == candidate.locator
    && candidate.review == Some(obligation.review)
  }

  predicate HasRule(rules: seq<CompiledRule>, candidate: Candidate) {
    exists rule | rule in rules :: Enforces(rule, candidate)
  }

  predicate RuleIsApproved(rule: CompiledRule, candidates: seq<Candidate>) {
    exists candidate | candidate in candidates :: IsApproved(candidate) && Enforces(rule, candidate)
  }

  predicate HasObligation(obligations: seq<Obligation>, candidate: Candidate) {
    exists obligation | obligation in obligations :: Documents(obligation, candidate)
  }

  predicate ObligationIsApproved(obligation: Obligation, candidates: seq<Candidate>) {
    exists candidate | candidate in candidates :: IsApproved(candidate) && Documents(obligation, candidate)
  }

  /** The rules are exactly those of the approved candidates. */
  predicate ConservesRules(rules: seq<CompiledRule>, candidates: seq<Candidate>) {
    && (forall candidate | candidate in candidates && IsApproved(candidate) :: HasRule(rules, candidate))
    && (forall rule | rule in rules :: RuleIsApproved(rule, candidates))
  }

  /** The obligations are exactly those of the approved candidates. */
  predicate ConservesObligations(obligations: seq<Obligation>, candidates: seq<Candidate>) {
    && (forall candidate | candidate in candidates && IsApproved(candidate) :: HasObligation(obligations, candidate))
    && (forall obligation | obligation in obligations :: ObligationIsApproved(obligation, candidates))
  }

  /** The items are the approved candidates, each with its review and its rule. */
  ghost predicate Itemize(items: seq<Item>, candidates: seq<Candidate>) {
    && (forall item | item in items ::
          HasAllParts(item) && item.candidate in candidates && IsApproved(item.candidate))
    && (forall candidate | candidate in candidates && IsApproved(candidate) ::
          exists item :: item in items && item.candidate == candidate)
  }

  lemma RulesAreConserved(items: seq<Item>, candidates: seq<Candidate>)
    requires Itemize(items, candidates)
    ensures ConservesRules(RulesOf(items), candidates)
  {
    var rules := RulesOf(items);
    forall i | 0 <= i < |items| ensures items[i] in items && rules[i] in rules && Enforces(rules[i], items[i].candidate) {
      assert items[i] in items;
    }
  }

  lemma ObligationsAreConserved(items: seq<Item>, candidates: seq<Candidate>, firstId: nat)
    requires Itemize(items, candidates)
    ensures ConservesObligations(ObligationsOf(items, firstId), candidates)
  {
    var obligations := ObligationsOf(items, firstId);
    forall i | 0 <= i < |items|
      ensures items[i] in items && obligations[i] in obligations && Documents(obligations[i], items[i].candidate)
    {
      assert items[i] in items;
    }
  }

  /** Rules and obligations are exactly those of the approved candidates. */
  predicate Conserves(bundle: PolicyBundle, candidates: seq<Candidate>) {
    ConservesRules(bundle.rules, candidates) && ConservesObligations(bundle.obligations, candidates)
  }

  lemma NewPackIsTheItems(desk: Desk, command: CompileCommand, firstId: nat)
    requires var result := CompileImport(desk, command, firstId); result.Ok? && result.value.NewPack?
    ensures var items := ItemsOf(command.sourceId, "", desk.candidates);
            && (forall item | item in items :: HasAllParts(item))
            && CompileImport(desk, command, firstId).value.bundle
                 == PolicyBundle([command.sourceId], ObligationsOf(items, firstId), RulesOf(items))
  {
  }

  lemma ItemsConserve(items: seq<Item>, sources: seq<string>, candidates: seq<Candidate>, firstId: nat)
    requires Itemize(items, candidates)
    ensures Conserves(PolicyBundle(sources, ObligationsOf(items, firstId), RulesOf(items)), candidates)
  {
    RulesAreConserved(items, candidates);
    ObligationsAreConserved(items, candidates, firstId);
  }

  /** Compiling drops nothing that was approved and invents nothing that was not. */
  lemma CompilationConserves(desk: Desk, command: CompileCommand, firstId: nat)
    requires var result := CompileImport(desk, command, firstId); result.Ok? && result.value.NewPack?
    ensures Conserves(CompileImport(desk, command, firstId).value.bundle, desk.candidates)
  {
    NewPackIsTheItems(desk, command, firstId);
    CandidatesOfItems(command.sourceId, desk.candidates);
    ItemsConserve(ItemsOf(command.sourceId, "", desk.candidates), [command.sourceId], desk.candidates, firstId);
  }

  lemma CandidatesOfItems(sourceId: string, candidates: seq<Candidate>)
    ensures forall item | item in ItemsOf(sourceId, "", candidates) ::
              item.candidate in candidates && IsApproved(item.candidate)
    ensures forall candidate | candidate in candidates && IsApproved(candidate) ::
              exists item :: item in ItemsOf(sourceId, "", candidates) && item.candidate == candidate
  {
    ItemsOfContents(sourceId, "", candidates);
    forall candidate | candidate in candidates && IsApproved(candidate)
      ensures exists item :: item in ItemsOf(sourceId, "", candidates) && item.candidate == candidate
    {
      assert Item(sourceId, "" + candidate.key, candidate) in ItemsOf(sourceId, "", candidates);
    }
  }

  /** A sound pack meets the evaluator's needs: its results can be stored, and an insufficient trace is inconclusive. */
  lemma SoundPacksNeverGuess(rules: seq<CompiledRule>, evidence: EvidenceBundle, parse: Evaluator.Parser)
    requires rules != [] && SoundRules(rules)
    ensures RunStore.DistinctRuleIds(Evaluator.EvaluatePack(rules, evidence, parse).results)
    ensures evidence.traceQuality == Insufficient ==>
              Evaluator.EvaluatePack(rules, evidence, parse).verdict == RunVerdict.Inconclusive
  {
    ResultsAreDistinct(rules, evidence, parse);
    if evidence.traceQuality == Insufficient {
      assert forall rule | rule in rules :: rule.onMissingEvidence == ReportNotObservable;
      EvaluatorLaws.InsufficientTraceVerdict(rules, evidence, parse);
    }
  }

  lemma ResultsAreDistinct(rules: seq<CompiledRule>, evidence: EvidenceBundle, parse: Evaluator.Parser)
    requires SoundRules(rules)
    ensures RunStore.DistinctRuleIds(Evaluator.EvaluatePack(rules, evidence, parse).results)
  {
    var results := Evaluator.Results(rules, evidence, parse);
    forall i, j | 0 <= i < j < |results| ensures results[i].ruleId != results[j].ruleId {
      OutcomeNamesItsRule(rules[i], evidence, parse);
      OutcomeNamesItsRule(rules[j], evidence, parse);
    }
  }

  lemma OutcomeNamesItsRule(rule: CompiledRule, evidence: EvidenceBundle, parse: Evaluator.Parser)
    ensures Evaluator.RuleOutcome(rule, evidence, parse).ruleId == rule.id
  {
  }
}
