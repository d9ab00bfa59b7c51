/** What each review operation does to an import and its candidates, and how it reaches the compiled pack. */
module ReviewLaws {
  import opened Wrappers
  import opened Sequences
  import opened Text
  import opened Evidence
  import opened PolicyReview
  import opened PolicyReviewLaws

  // ---------------------------------------------------------------- readiness

  /** Everything an approved candidate must have to be compiled: a rule that asserts something, and a source. */
  predicate IsComplete(candidate: Candidate) {
    match candidate.suggestion
    case None => false
    case Some(suggestion) =>
      candidate.mapping == Ready && |suggestion.assertions| > 0 && |candidate.locator.excerptSha256| > 0
  }

  /**
   * An import is ready to compile if and only if its source is verified, all its chunks were processed, every
   * candidate was decided on, some are approved, and all of these are complete.
   */
  lemma ReadyIff(imported: Import, candidates: seq<Candidate>)
    ensures ReviewCompleteFor(imported, candidates) <==>
              && imported.verification == Verified
              && 0 < imported.coverage.total == imported.coverage.processed && |imported.coverage.failed| == 0
              && |candidates| > 0
              && forall candidate | candidate in candidates ::
                   candidate.status == Rejected || (candidate.status == Approved && IsComplete(candidate))
    ensures ReadyFor(imported, candidates) <==>
              ReviewCompleteFor(imported, candidates) && exists candidate | candidate in candidates :: candidate.status == Approved
  {
    forall candidate | candidate in candidates
      ensures Compilable(candidate) <==> IsComplete(candidate)
      ensures IsApproved(candidate) <==> candidate.status == Approved
    {
    }
  }

  // ---------------------------------------------------------------- one review

  predicate IsBlank(s: string) {
    Trim(s) == []
  }

  /** An edit that can be taken: it says something, within the limits, and is ready only with a rule that asserts something. */
  predicate Acceptable(edit: CandidateEdit) {
    && !IsBlank(edit.statement) && |edit.statement| <= 2_000
    && |edit.exceptions| <= 100 && |edit.requiredEvidence| <= 100
    && (forall text | text in edit.exceptions :: |text| <= 256)
    && (forall text | text in edit.requiredEvidence :: |text| <= 256)
    && (edit.mapping == Ready ==> edit.suggestion != None && |edit.suggestion.value.assertions| > 0)
  }

  predicate InOpenReview(status: ImportStatus) {
    status in {ReviewRequired, ReadyToCompile}
  }

  /** Why a review is refused, in this order. */
  function RefusalOfReview(desk: Desk, command: ReviewCommand): Option<PolicyError> {
    if IsBlank(command.reviewer) || |command.reviewer| > 320 || |command.notes| > 4_000 || command.decision == Pending
    then Some(InvalidRequest)
    else if !InOpenReview(desk.imported.status) then Some(Conflicting)
    else if forall candidate | candidate in desk.candidates :: candidate.id != command.candidateId then Some(NotFound)
    else if command.edit.Some? && !Acceptable(command.edit.value) then Some(InvalidRequest)
    else if command.expectedUpdatedAt != None
            && exists candidate | candidate in desk.candidates ::
                 candidate.id == command.candidateId && Some(candidate.updatedAt) != command.expectedUpdatedAt
    then Some(Conflicting)
    else None
  }

  lemma AcceptableIff(edit: CandidateEdit)
    ensures ValidEdit(edit) <==> Acceptable(edit)
  {
    var both := edit.exceptions + edit.requiredEvidence;
    assert forall text :: text in both <==> text in edit.exceptions || text in edit.requiredEvidence;
  }

  /** The candidate as the reviewer left it: decided and signed, edited if there was an edit, otherwise the same. */
  predicate IsReviewOf(after: Candidate, before: Candidate, command: ReviewCommand, now: Time) {
    && after.status == command.decision && after.updatedAt == now
    && after.review == Some(Review(command.reviewer, command.notes, now))
    && (after.id, after.key, after.fingerprint, after.locator, after.excerpt)
         == (before.id, before.key, before.fingerprint, before.locator, before.excerpt)
    && match command.edit
       case None => (after.statement, after.severity, after.suggestion, after.mapping)
                      == (before.statement, before.severity, before.suggestion, before.mapping)
       case Some(edit) => (after.statement, after.severity, after.suggestion, after.mapping)
                            == (edit.statement, edit.severity, edit.suggestion, edit.mapping)
  }

  /** The import as before, in the state its candidates now give it. */
  predicate IsRefreshed(before: Desk, after: Desk) {
    && after.imported == before.imported.(status := after.imported.status)
    && InOpenReview(after.imported.status)
    && (after.imported.status == ReadyToCompile <==> ReviewCompleteFor(before.imported, after.candidates))
  }

  /**
   * A review is refused exactly for the reasons above, and then changes nothing; otherwise exactly the
   * candidate it names is reviewed as commanded, and the import's state follows.
   */
  lemma ReviewMeaning(desk: Desk, command: ReviewCommand, now: Time)
    requires DistinctCandidateIds(desk.candidates)
    ensures match RefusalOfReview(desk, command)
            case Some(error) => ReviewCandidate(desk, command, now) == Err(error)
            case None =>
              && ReviewCandidate(desk, command, now).Ok?
              && var after := ReviewCandidate(desk, command, now).value;
                 && IsRefreshed(desk, after) && |after.candidates| == |desk.candidates|
                 && forall k | 0 <= k < |desk.candidates| ::
                      if desk.candidates[k].id == command.candidateId
                      then IsReviewOf(after.candidates[k], desk.candidates[k], command, now)
                      else after.candidates[k] == desk.candidates[k]
  {
    if command.edit.Some? {
      AcceptableIff(command.edit.value);
    }
    var found := IndexOfCandidate(desk.candidates, command.candidateId);
    if found.Some? {
      assert desk.candidates[found.value] in desk.candidates;
      forall k | 0 <= k < |desk.candidates| && k != found.value ensures desk.candidates[k].id != command.candidateId {
      }
    }
  }

  // ---------------------------------------------------------------- from the review to the pack

  /** What the pack must enforce for a candidate that was approved under this command. */
  predicate CarriesTheReview(bundle: PolicyBundle, before: Candidate, command: ReviewCommand, now: Time) {
    var (statement, severity, suggestion) :=
      match command.edit
      case None => (before.statement, before.severity, before.suggestion)
      case Some(edit) => (edit.statement, edit.severity, edit.suggestion);
    && (exists rule | rule in bundle.rules ::
          && suggestion.Some? && rule.severity == severity && rule.trigger == suggestion.value.trigger
          && rule.assertions == suggestion.value.assertions && rule.evidenceRequired == suggestion.value.evidenceRequired)
    && exists obligation | obligation in bundle.obligations ::
         && obligation.statement == statement && obligation.locator == before.locator
         && obligation.review == Review(command.reviewer, command.notes, now)
  }

  /**
   * What a reviewer approves, with the edits made on the way, is what the pack enforces and documents, whatever
   * else was in the import.
   */
  lemma ApprovalReachesThePack(
    desk: Desk, command: ReviewCommand, now: Time, before: Candidate, compile: CompileCommand, firstId: nat)
    requires DistinctCandidateIds(desk.candidates) && ReviewCandidate(desk, command, now).Ok?
    requires command.decision == Approved && before in desk.candidates && before.id == command.candidateId
    requires var result := CompileImport(ReviewCandidate(desk, command, now).value, compile, firstId);
             result.Ok? && result.value.NewPack?
    ensures CarriesTheReview(CompileImport(ReviewCandidate(desk, command, now).value, compile, firstId).value.bundle,
                             before, command, now)
  {
    var after := ReviewCandidate(desk, command, now).value;
    ReviewMeaning(desk, command, now);
    CompilationConserves(after, compile, firstId);
    var bundle := CompileImport(after, compile, firstId).value.bundle;
    var k :| 0 <= k < |desk.candidates| && desk.candidates[k] == before;
    assert IsReviewOf(after.candidates[k], before, command, now) && after.candidates[k] in after.candidates;
    ReviewedIsCarried(bundle, after.candidates[k], before, command, now);
  }

  lemma ReviewedIsCarried(bundle: PolicyBundle, after: Candidate, before: Candidate, command: ReviewCommand, now: Time)
    requires IsReviewOf(after, before, command, now)
    requires HasRule(bundle.rules, after) && HasObligation(bundle.obligations, after)
    ensures CarriesTheReview(bundle, before, command, now)
  {
    var rule :| rule in bundle.rules && Enforces(rule, after);
    var obligation :| obligation in bundle.obligations && Documents(obligation, after);
  }

  /** The rule id of a candidate under its own key. */
  function RuleIdOf(candidate: Candidate): string {
    RuleId(candidate.key)
  }

  /** A rule and an obligation that stand for this candidate, and nothing missing counts against a run. */
  predicate StandFor(rule: CompiledRule, obligation: Obligation, candidate: Candidate, sourceId: string, id: nat) {
    && Enforces(rule, candidate) && Documents(obligation, candidate)
    && rule.id == RuleIdOf(candidate) && rule.obligationKey == obligation.key == candidate.key
    && rule.onMissingEvidence == ReportNotObservable
    && obligation.sourceId == sourceId && obligation.id == id
  }

  /**
   * The pack of an import has one rule and one obligation for each approved candidate and none for any other,
   * in the order of the candidates, under their keys, numbered from the first fresh identifier on.
   */
  lemma PackListsTheApproved(desk: Desk, command: CompileCommand, firstId: nat) returns (at: seq<nat>)
    requires var result := CompileImport(desk, command, firstId); result.Ok? && result.value.NewPack?
    ensures var bundle := CompileImport(desk, command, firstId).value.bundle;
            && StrictlyIncreasing(at) && |bundle.rules| == |bundle.obligations| == |at|
            && (forall k: nat | k < |desk.candidates| :: k in at <==> desk.candidates[k].status == Approved)
            && forall i | 0 <= i < |at| ::
                 && at[i] < |desk.candidates|
                 && StandFor(bundle.rules[i], bundle.obligations[i], desk.candidates[at[i]], command.sourceId, firstId + i)
  {
    NewPackIsTheItems(desk, command, firstId);
    at := FilterSelects(IsApproved, desk.candidates);
    ApprovedAreSelected(desk.candidates, Filter(IsApproved, desk.candidates), at);
    ItemsAreTheApproved(command.sourceId, desk.candidates);
    ItemsStand(ItemsOf(command.sourceId, "", desk.candidates), Filter(IsApproved, desk.candidates), command.sourceId, firstId);
  }

  lemma ApprovedAreSelected(candidates: seq<Candidate>, kept: seq<Candidate>, at: seq<nat>)
    requires IsSelection(IsApproved, candidates, kept, at)
    ensures forall k: nat | k < |candidates| :: k in at <==> candidates[k].status == Approved
  {
    forall k: nat | k < |candidates| ensures k in at <==> candidates[k].status == Approved {
      SelectedIff(IsApproved, candidates, kept, at, k);
    }
  }

  lemma ItemsStand(items: seq<Item>, candidates: seq<Candidate>, sourceId: string, firstId: nat)
    requires forall item | item in items :: HasAllParts(item)
    requires |items| == |candidates|
    requires forall i | 0 <= i < |items| :: items[i] == Item(sourceId, candidates[i].key, candidates[i])
    ensures forall i | 0 <= i < |items| ::
              StandFor(RulesOf(items)[i], ObligationsOf(items, firstId)[i], candidates[i], sourceId, firstId + i)
  {
    forall i | 0 <= i < |items|
      ensures StandFor(RulesOf(items)[i], ObligationsOf(items, firstId)[i], candidates[i], sourceId, firstId + i)
    {
      assert items[i] in items;
    }
  }

  lemma {:induction false} ItemsAreTheApproved(sourceId: string, candidates: seq<Candidate>)
    ensures var (items, approved) := (ItemsOf(sourceId, "", candidates), Filter(IsApproved, candidates));
            && |items| == |approved|
            && forall i | 0 <= i < |items| :: items[i] == Item(sourceId, approved[i].key, approved[i])
  {
    if candidates != [] {
      ItemsAreTheApproved(sourceId, candidates[1..]);
      assert "" + candidates[0].key == candidates[0].key;
    }
  }

  /** A candidate that was rejected never reaches a pack, under whatever key. */
  lemma RejectionNeverReachesThePack(
    desk: Desk, command: ReviewCommand, now: Time, before: Candidate, compile: CompileCommand, firstId: nat)
    requires SoundDesk(desk) && ReviewCandidate(desk, command, now).Ok?
    requires command.decision == Rejected && before in desk.candidates && before.id == command.candidateId
    requires var result := CompileImport(ReviewCandidate(desk, command, now).value, compile, firstId);
             result.Ok? && result.value.NewPack?
    ensures forall rule | rule in CompileImport(ReviewCandidate(desk, command, now).value, compile, firstId).value.bundle.rules ::
              rule.id != RuleIdOf(before)
  {
    var after := ReviewCandidate(desk, command, now).value;
    ReviewMeaning(desk, command, now);
    ReviewKeeps(desk, command, now);
    var at := PackListsTheApproved(after, compile, firstId);
    var rules := CompileImport(after, compile, firstId).value.bundle.rules;
    var k :| 0 <= k < |desk.candidates| && desk.candidates[k] == before;
    forall i | 0 <= i < |rules| ensures rules[i].id != RuleIdOf(before) {
      var other := after.candidates[at[i]];
      assert at[i] in at && at[i] != k;
      assert other in after.candidates;
      RuleIdsAreInjective("", other, "", before);
      assert "" + other.key == other.key && "" + before.key == before.key;
    }
  }

  // ---------------------------------------------------------------- manual candidates

  /** A manual candidate that can be taken: complete, within the limits, and quoting what its locator hashes. */
  predicate Statable(command: ManualCommand, hash: Hash) {
    && !IsBlank(command.statement) && |command.statement| <= 2_000
    && !IsBlank(command.excerpt) && |command.excerpt| <= 4_000
    && !IsBlank(command.reviewer) && |command.reviewer| <= 320
    && |command.suggestion.assertions| > 0
    && command.locator.excerptSha256 == hash(command.excerpt)
  }

  /** What makes two statements of one source the same: where they are, and their text up to case and outer white space. */
  predicate IsSameStatement(candidate: Candidate, contentSha256: string, statement: string, locator: Locator) {
    && candidate.fingerprint.contentSha256 == contentSha256 && candidate.fingerprint.locator == locator
    && candidate.fingerprint.statement == Lower(Trim(statement))
  }

  function RefusalOfManual(desk: Desk, command: ManualCommand, hash: Hash): Option<PolicyError> {
    if !Statable(command, hash) then Some(InvalidRequest)
    else if !InOpenReview(desk.imported.status) then Some(Conflicting)
    else if exists candidate | candidate in desk.candidates ::
              IsSameStatement(candidate, desk.imported.contentSha256, command.statement, command.locator)
    then Some(Conflicting)
    else None
  }

  /** The candidate a reviewer adds: approved and signed by the one who added it, ready to compile as stated. */
  predicate IsManual(candidate: Candidate, desk: Desk, command: ManualCommand, id: string, now: Time) {
    && candidate.id == id && candidate.key == "MAN-" + id && candidate.updatedAt == now
    && candidate.status == Approved && candidate.mapping == Ready && candidate.suggestion == Some(command.suggestion)
    && candidate.statement == command.statement && candidate.excerpt == command.excerpt
    && candidate.locator == command.locator && candidate.severity == command.severity
    && IsSameStatement(candidate, desk.imported.contentSha256, command.statement, command.locator)
    && candidate.review.Some? && candidate.review.value.reviewer == command.reviewer && candidate.review.value.reviewedAt == now
  }

  /** A manual candidate is refused exactly for these reasons, and otherwise appended to those there are. */
  lemma ManualMeaning(desk: Desk, command: ManualCommand, id: string, now: Time, hash: Hash)
    ensures match RefusalOfManual(desk, command, hash)
            case Some(error) => AddManual(desk, command, id, now, hash) == Err(error)
            case None =>
              && AddManual(desk, command, id, now, hash).Ok?
              && var after := AddManual(desk, command, id, now, hash).value;
                 && IsRefreshed(desk, after) && |after.candidates| == |desk.candidates| + 1
                 && after.candidates[..|desk.candidates|] == desk.candidates
                 && IsManual(after.candidates[|desk.candidates|], desk, command, id, now)
  {
    var candidate := Manual(desk.imported, command, id, now);
    assert forall other: Candidate :: other.fingerprint == candidate.fingerprint <==>
        IsSameStatement(other, desk.imported.contentSha256, command.statement, command.locator);
  }

  // ---------------------------------------------------------------- extraction

  /** A text contains another if it is that text with something before and something behind it. */
  lemma ContainsMeaning(text: string, part: string)
    ensures Contains(text, part) <==> exists before, behind :: text == before + part + behind
  {
    if Contains(text, part) {
      var i :| 0 <= i <= |text| && OccursAt(text, part, i);
      assert text == text[..i] + part + text[i + |part|..];
    }
    if before, behind :| text == before + part + behind {
      assert text[|before|..|before| + |part|] == part;
      assert OccursAt(text, part, |before|);
    }
  }

  /** A segment of the document that the item names and quotes. */
  predicate IsQuoted(document: seq<Segment>, item: ExtractedItem) {
    exists i: nat | i < |document| ::
      && document[i].ordinal == item.segment && (forall j | 0 <= j < i :: document[j].ordinal != item.segment)
      && !IsBlank(item.excerpt) && Contains(document[i].text, item.excerpt)
  }

  /** The candidate an extracted item becomes: as the model gave it, undecided, located in the segment it quotes. */
  predicate IsCandidateOf(
    candidate: Candidate, imported: Import, document: seq<Segment>, item: ExtractedItem, id: string, now: Time, hash: Hash)
  {
    && candidate.id == id && candidate.key == "EXT-" + id && candidate.updatedAt == now
    && candidate.status == Pending && candidate.review == None
    && candidate.statement == Trim(item.statement) && candidate.excerpt == item.excerpt
    && (candidate.severity, candidate.suggestion, candidate.mapping) == (item.severity, item.suggestion, item.mapping)
    && IsSameStatement(candidate, imported.contentSha256, item.statement, candidate.locator)
    && candidate.locator.excerptSha256 == hash(item.excerpt) && candidate.locator.sourceUrl == imported.sourceUrl
    && exists segment | segment in document ::
         segment.ordinal == item.segment
         && (candidate.locator.page, candidate.locator.section, candidate.locator.paragraph)
              == (segment.page, segment.section, segment.paragraph)
  }

  lemma {:induction false} FoundSegmentIsFirst(document: seq<Segment>, ordinal: nat) returns (i: nat)
    requires FindSegment(document, ordinal).Some?
    ensures i < |document| && document[i] == FindSegment(document, ordinal).value
    ensures forall j | 0 <= j < i :: document[j].ordinal != ordinal
  {
    if document[0].ordinal == ordinal {
      i := 0;
    } else {
      var k := FoundSegmentIsFirst(document[1..], ordinal);
      i := k + 1;
      assert forall j | 0 < j < i :: document[j] == document[1..][j - 1];
    }
  }

  /** An item is taken exactly if its confidence is a probability and it quotes the segment it names. */
  lemma ExtractedMeaning(imported: Import, document: seq<Segment>, item: ExtractedItem, id: string, now: Time, hash: Hash)
    ensures var result := Extracted(imported, document, item, id, now, hash);
            && (result.Ok? <==> 0.0 <= item.confidence && item.confidence <= 1.0 && IsQuoted(document, item))
            && (result.Ok? ==> IsCandidateOf(result.value, imported, document, item, id, now, hash))
  {
    var found := FindSegment(document, item.segment);
    if found.Some? {
      var i := FoundSegmentIsFirst(document, item.segment);
      assert IsQuoted(document, item) <==> !IsBlank(item.excerpt) && Contains(found.value.text, item.excerpt);
    }
  }

  /** The item can be taken. */
  predicate IsTakeable(document: seq<Segment>, item: ExtractedItem) {
    0.0 <= item.confidence && item.confidence <= 1.0 && IsQuoted(document, item)
  }

  lemma {:induction false} AllTakenIff(
    imported: Import, document: seq<Segment>, items: seq<ExtractedItem>, ids: seq<string>, now: Time, hash: Hash)
    requires |ids| == |items|
    ensures ExtractAll(imported, document, items, ids, now, hash).Ok? <==>
              forall item | item in items :: IsTakeable(document, item)
  {
    if items != [] {
      ExtractedMeaning(imported, document, items[0], ids[0], now, hash);
      AllTakenIff(imported, document, items[1..], ids[1..], now, hash);
      assert items == [items[0]] + items[1..];
      assert (forall item | item in items :: IsTakeable(document, item)) <==>
               IsTakeable(document, items[0]) && forall item | item in items[1..] :: IsTakeable(document, item);
    }
  }

  /**
   * A document's candidates are taken all or none: all if each item is a probability and quotes its segment, and
   * then as many as items, in their order, each from its own item.
   */
  lemma ExtractionMeaning(
    imported: Import, document: seq<Segment>, items: seq<ExtractedItem>, ids: seq<string>, now: Time, hash: Hash)
    requires |ids| == |items|
    ensures var result := ExtractAll(imported, document, items, ids, now, hash);
            && (result.Ok? <==> forall item | item in items :: IsTakeable(document, item))
            && (result.Ok? ==>
                  && |result.value| == |items|
                  && forall k | 0 <= k < |items| ::
                       IsCandidateOf(result.value[k], imported, document, items[k], ids[k], now, hash))
  {
    AllTakenIff(imported, document, items, ids, now, hash);
    ExtractAllContents(imported, document, items, ids, now, hash);
    var result := ExtractAll(imported, document, items, ids, now, hash);
    if result.Ok? {
      forall k | 0 <= k < |items|
        ensures IsCandidateOf(result.value[k], imported, document, items[k], ids[k], now, hash)
      {
        ExtractedMeaning(imported, document, items[k], ids[k], now, hash);
      }
    }
  }

  /** Extracted candidates replace those there were unless one of these was reviewed or two of them are the same. */
  lemma StoringMeaning(desk: Desk, candidates: seq<Candidate>, coverage: Coverage)
    ensures var result := StoreExtraction(desk, candidates, coverage);
            && (result.Ok? <==>
                  && desk.imported.status == Extracting
                  && (forall candidate | candidate in desk.candidates :: candidate.review == None)
                  && forall i, j | 0 <= i < |candidates| && 0 <= j < |candidates| && i != j ::
                       candidates[i].fingerprint != candidates[j].fingerprint)
            && (result.Err? ==> result.error == Conflicting)
            && (result.Ok? ==>
                  && result.value.candidates == candidates
                  && result.value.imported == desk.imported.(coverage := coverage, status := result.value.imported.status)
                  && (coverage.failed == [] ==> result.value.imported.status == ReviewRequired)
                  && (coverage.failed != [] ==> result.value.imported.status == FailedRetryable))
  {
  }

  // ---------------------------------------------------------------- the other operations of the workflow

  /** Requested transitions: back into the queue from an upload, a scan or a failure, and on to parsing. */
  lemma TransitionMeaning(desk: Desk, expected: ImportStatus, next: ImportStatus, hash: Hash)
    ensures var result := Act(desk, Transition(expected, next), hash);
            && (result.Ok? <==>
                  && desk.imported.status == expected
                  && (expected, next) in {(Uploading, Queued), (NeedsOcr, Queued), (FailedRetryable, Queued), (Queued, Parsing)})
            && (result.Ok? ==> result.value == desk.(imported := desk.imported.(status := next)))
  {
  }

  /** Verifying or rejecting the source is part of the review and re-derives its state. */
  lemma VerificationMeaning(desk: Desk, verified: bool)
    ensures var result := VerifySource(desk, verified);
            && (result.Ok? <==> InOpenReview(desk.imported.status))
            && (result.Err? ==> result.error == Conflicting)
            && (result.Ok? ==>
                  && result.value.candidates == desk.candidates
                  && (verified ==> result.value.imported.verification == Verified)
                  && (!verified ==> result.value.imported.verification == VerificationRejected)
                  && IsRefreshed(desk.(imported := desk.imported.(verification := result.value.imported.verification)),
                                 result.value))
  {
  }

  /** Parsing ends in extraction with nothing processed yet; a scan is queued again, and its source is unverified. */
  lemma PreparationMeaning(desk: Desk, segments: nat, hash: Hash)
    ensures var (parsed, attached) := (Act(desk, Parsed(segments), hash), Act(desk, AttachTransformation, hash));
            && (parsed.Ok? <==> desk.imported.status == Parsing)
            && (parsed.Ok? ==>
                  parsed.value == desk.(imported := desk.imported.(status := Extracting, coverage := Coverage(segments, 0, []))))
            && (attached.Ok? <==> desk.imported.status == NeedsOcr)
            && (attached.Ok? ==>
                  attached.value == desk.(imported := desk.imported.(status := Queued, verification := Unverified)))
  {
  }

  /** Recording a failure changes the state alone; only the three kinds of failure can be recorded. */
  lemma RecordedFailureMeaning(desk: Desk, status: ImportStatus, hash: Hash)
    ensures var result := Act(desk, MarkFailure(status), hash);
            && (result.Ok? <==> status in {NeedsOcr, FailedRetryable, FailedTerminal})
            && (result.Ok? ==> result.value == desk.(imported := desk.imported.(status := status)))
  {
  }

  /**
   * Compilation marks an import with its pack and source, once: alone, a second compilation answers the first
   * pack and changes nothing; in a collection, the source must be the one it has, and its own pack is kept.
   */
  lemma CompilationMarks(desk: Desk, command: CompileCommand, firstId: nat, sourceId: string, packId: nat, hash: Hash)
    ensures desk.imported.compiledPackId.Some? ==>
              && CompileImport(desk, command, firstId) == Ok(AlreadyCompiled(desk.imported.compiledPackId.value))
              && Compile(desk, command, firstId) == Ok(desk)
    ensures desk.imported.compiledPackId == None && Compile(desk, command, firstId).Ok? ==>
              var after := Compile(desk, command, firstId).value;
              && after.candidates == desk.candidates
              && after.imported == desk.imported.(
                   status := Compiled, compiledSourceId := Some(command.sourceId), compiledPackId := Some(command.packId))
    ensures var result := Act(desk, CompiledInCollection(sourceId, packId), hash);
            && (result.Ok? <==>
                  && desk.imported.status in {ReadyToCompile, Compiled}
                  && (desk.imported.compiledSourceId == None || desk.imported.compiledSourceId == Some(sourceId)))
            && (result.Ok? ==>
                  && result.value.candidates == desk.candidates
                  && result.value.imported == desk.imported.(
                       status := Compiled, compiledSourceId := Some(sourceId),
                       compiledPackId := result.value.imported.compiledPackId)
                  && result.value.imported.compiledPackId
                       == match desk.imported.compiledPackId case Some(own) => Some(own) case None => Some(packId))
  {
  }
}
