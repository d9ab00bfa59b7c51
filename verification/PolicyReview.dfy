/** Review of the candidates extracted from one policy source, up to a compiled policy pack. */
module PolicyReview {
  import opened Wrappers
  import opened Sequences
  import opened Text
  import opened Evidence

  datatype CandidateStatus = Pending | Approved | Rejected

  datatype MappingStatus = Ready | ManualRequired | Unsupported

  datatype Locator = Locator(
    page: Option<nat>, section: Option<string>, paragraph: Option<nat>, sourceUrl: Option<string>, excerptSha256: string)

  datatype RuleSuggestion = RuleSuggestion(trigger: EventMatcher, assertions: seq<Assertion>, evidenceRequired: seq<string>)

  datatype Review = Review(reviewer: string, notes: string, reviewedAt: Time)

  datatype Fingerprint = Fingerprint(contentSha256: string, statement: string, locator: Locator)

  datatype Candidate = Candidate(
    id: string,
    key: string,
    fingerprint: Fingerprint,
    statement: string,
    locator: Locator,
    excerpt: string,
    severity: Severity,
    suggestion: Option<RuleSuggestion>,
    mapping: MappingStatus,
    status: CandidateStatus,
    review: Option<Review>,
    updatedAt: Time)

  datatype ImportStatus =
    | Uploading | Queued | Parsing | Extracting | ReviewRequired | ReadyToCompile | Compiled
    | NeedsOcr | FailedRetryable | FailedTerminal

  datatype Verification = Unverified | Verified | VerificationRejected

  datatype Coverage = Coverage(total: nat, processed: nat, failed: seq<string>)

  datatype Import = Import(
    id: nat,
    sourceId: Uuid,
    sourceUrl: Option<string>,
    contentSha256: string,
    status: ImportStatus,
    verification: Verification,
    coverage: Coverage,
    compiledSourceId: Option<string>,
    compiledPackId: Option<nat>)

  datatype PolicyError = InvalidRequest | NotFound | Conflicting

  predicate CanTransition(status: ImportStatus, next: ImportStatus) {
    match status
    case Uploading => next == Queued || next == FailedRetryable || next == FailedTerminal
    case Queued => next == Parsing || next == FailedRetryable || next == FailedTerminal
    case Parsing => next == Extracting || next == NeedsOcr || next == FailedRetryable || next == FailedTerminal
    case Extracting => next == ReviewRequired || next == FailedRetryable || next == FailedTerminal
    case ReviewRequired => next == ReadyToCompile
    case ReadyToCompile => next == ReviewRequired || next == Compiled
    case NeedsOcr => next == Queued
    case FailedRetryable => next == Queued
    case Compiled => false
    case FailedTerminal => false
  }

  // ---------------------------------------------------------------- readiness

  datatype Blocker = SourceUnverified | ChunksUnprocessed | CandidatesUndisposed | NothingApproved | MappingsUnready

  datatype Readiness = Readiness(
    sourceVerified: bool, coverageComplete: bool, allDisposed: bool, hasApproved: bool, mappingsReady: bool,
    blockers: seq<Blocker>)

  predicate CoverageComplete(coverage: Coverage) {
    coverage.total > 0 && coverage.total == coverage.processed && coverage.failed == []
  }

  predicate IsApproved(candidate: Candidate) {
    candidate.status == Approved
  }

  /** An approved candidate that can be compiled as it stands. */
  predicate Compilable(candidate: Candidate) {
    && candidate.mapping == Ready
    && candidate.suggestion.Some? && candidate.suggestion.value.assertions != []
    && candidate.locator.excerptSha256 != []
  }

  predicate AllDisposed(candidates: seq<Candidate>) {
    candidates != [] && forall candidate | candidate in candidates :: candidate.status != Pending
  }

  predicate MappingsReady(candidates: seq<Candidate>) {
    forall candidate | candidate in candidates && IsApproved(candidate) :: Compilable(candidate)
  }

  predicate ReviewCompleteFor(imported: Import, candidates: seq<Candidate>) {
    && imported.verification == Verified
    && CoverageComplete(imported.coverage)
    && AllDisposed(candidates)
    && MappingsReady(candidates)
  }

  /** Computes the gates and collects a blocker for every gate that is closed. */
  method CalculateReadiness(imported: Import, candidates: seq<Candidate>) returns (r: Readiness)
    ensures r.sourceVerified <==> imported.verification == Verified
    ensures r.coverageComplete <==> CoverageComplete(imported.coverage)
    ensures r.allDisposed <==> AllDisposed(candidates)
    ensures r.hasApproved <==> exists candidate :: candidate in candidates && IsApproved(candidate)
    ensures r.mappingsReady <==> MappingsReady(candidates)
    ensures WellBlocked(r)
  {
    var approved := Filter(IsApproved, candidates);
    var blockers: seq<Blocker> := [];
    var allDisposed := candidates != [] && forall candidate | candidate in candidates :: candidate.status != Pending;
    var mappingsReady := forall candidate | candidate in approved :: Compilable(candidate);
    assert approved != [] ==> approved[0] in approved;
    if imported.verification != Verified {
      blockers := blockers + [SourceUnverified];
    }
    if !CoverageComplete(imported.coverage) {
      blockers := blockers + [ChunksUnprocessed];
    }
    if !allDisposed {
      blockers := blockers + [CandidatesUndisposed];
    }
    if approved == [] {
      blockers := blockers + [NothingApproved];
    }
    if !mappingsReady {
      blockers := blockers + [MappingsUnready];
    }
    r := Readiness(imported.verification == Verified, CoverageComplete(imported.coverage), allDisposed, approved != [],
                   mappingsReady, blockers);
  }

  /** Each closed gate has its blocker, and nothing else is a blocker. */
  predicate WellBlocked(r: Readiness) {
    && (SourceUnverified in r.blockers <==> !r.sourceVerified)
    && (ChunksUnprocessed in r.blockers <==> !r.coverageComplete)
    && (CandidatesUndisposed in r.blockers <==> !r.allDisposed)
    && (NothingApproved in r.blockers <==> !r.hasApproved)
    && (MappingsUnready in r.blockers <==> !r.mappingsReady)
  }

  predicate IsReady(r: Readiness) {
    r.blockers == []
  }

  predicate ReviewComplete(r: Readiness) {
    r.sourceVerified && r.coverageComplete && r.allDisposed && r.mappingsReady
  }

  function ReviewBlockers(r: Readiness): seq<Blocker> {
    Filter((blocker: Blocker) => blocker != NothingApproved, r.blockers)
  }

  /** Ready is complete review with something approved; review is complete exactly when it has no blocker of its own. */
  lemma ReadinessMeaning(r: Readiness)
    requires WellBlocked(r)
    ensures IsReady(r) <==> ReviewComplete(r) && r.hasApproved
    ensures ReviewComplete(r) <==> ReviewBlockers(r) == []
  {
    if r.blockers != [] {
      BlockerIsKnown(r.blockers[0]);
      assert r.blockers[0] in r.blockers;
    }
    if ReviewBlockers(r) != [] {
      var blocker := ReviewBlockers(r)[0];
      assert blocker in ReviewBlockers(r);
      BlockerIsKnown(blocker);
    }
  }

  lemma BlockerIsKnown(blocker: Blocker)
    ensures blocker in {SourceUnverified, ChunksUnprocessed, CandidatesUndisposed, NothingApproved, MappingsUnready}
  {
  }

  // ---------------------------------------------------------------- extraction

  datatype Segment = Segment(ordinal: nat, page: Option<nat>, section: Option<string>, paragraph: Option<nat>, text: string)

  datatype ExtractedItem = ExtractedItem(
    segment: nat, excerpt: string, statement: string, severity: Severity, suggestion: Option<RuleSuggestion>,
    mapping: MappingStatus, confidence: real)

  type Hash = string -> string

  function FindSegment(document: seq<Segment>, ordinal: nat): (r: Option<Segment>)
    ensures r.Some? ==> r.value in document && r.value.ordinal == ordinal
    ensures r.None? ==> forall segment | segment in document :: segment.ordinal != ordinal
  {
    if document == [] then None
    else if document[0].ordinal == ordinal then Some(document[0])
    else FindSegment(document[1..], ordinal)
  }

  function FingerprintOf(imported: Import, statement: string, locator: Locator): Fingerprint {
    Fingerprint(imported.contentSha256, Lower(Trim(statement)), locator)
  }

  /** A candidate from the model's answer; refused unless its excerpt is a verbatim part of the segment it names. */
  function Extracted(imported: Import, document: seq<Segment>, item: ExtractedItem, id: string, now: Time, hash: Hash)
    : (r: Result<Candidate, PolicyError>)
    ensures r.Ok? ==> exists segment :: segment in document && Contains(segment.text, r.value.excerpt)
  {
    if !(0.0 <= item.confidence <= 1.0) then Err(InvalidRequest)
    else
      match FindSegment(document, item.segment)
      case None => Err(InvalidRequest)
      case Some(segment) =>
        if Trim(item.excerpt) == [] || !Contains(segment.text, item.excerpt) then Err(InvalidRequest)
        else
          var locator := Locator(segment.page, segment.section, segment.paragraph, imported.sourceUrl, hash(item.excerpt));
          Ok(Candidate(
            id, "EXT-" + id, FingerprintOf(imported, item.statement, locator), Trim(item.statement), locator, item.excerpt,
            item.severity, item.suggestion, item.mapping, Pending, None, now))
  }

  /** All candidates, or the first refusal; `ids` are the fresh identifiers drawn for them. */
  function ExtractAll(
    imported: Import, document: seq<Segment>, items: seq<ExtractedItem>, ids: seq<string>, now: Time, hash: Hash)
    : Result<seq<Candidate>, PolicyError>
    requires |ids| == |items|
  {
    if items == [] then Ok([])
    else
      match Extracted(imported, document, items[0], ids[0], now, hash)
      case Err(error) => Err(error)
      case Ok(candidate) =>
        match ExtractAll(imported, document, items[1..], ids[1..], now, hash)
        case Err(error) => Err(error)
        case Ok(rest) => Ok([candidate] + rest)
  }

  // ---------------------------------------------------------------- review

  datatype CandidateEdit = CandidateEdit(
    statement: string, exceptions: seq<string>, requiredEvidence: seq<string>, severity: Severity,
    suggestion: Option<RuleSuggestion>, mapping: MappingStatus)

  datatype ReviewCommand = ReviewCommand(
    candidateId: string, decision: CandidateStatus, reviewer: string, notes: string, expectedUpdatedAt: Option<Time>,
    edit: Option<CandidateEdit>)

  datatype ManualCommand = ManualCommand(
    reviewer: string, statement: string, excerpt: string, locator: Locator, severity: Severity,
    suggestion: RuleSuggestion)

  predicate ValidEdit(edit: CandidateEdit) {
    && Trim(edit.statement) != []
    && (edit.mapping == Ready ==> edit.suggestion.Some? && edit.suggestion.value.assertions != [])
    && |edit.statement| <= 2_000 && |edit.exceptions| <= 100 && |edit.requiredEvidence| <= 100
    && (forall item | item in edit.exceptions + edit.requiredEvidence :: |item| <= 256)
  }

  predicate ValidReview(command: ReviewCommand) {
    Trim(command.reviewer) != [] && |command.reviewer| <= 320 && |command.notes| <= 4_000 && command.decision != Pending
  }

  predicate ValidManual(command: ManualCommand, hash: Hash) {
    && Trim(command.statement) != [] && Trim(command.excerpt) != [] && Trim(command.reviewer) != []
    && |command.reviewer| <= 320 && |command.statement| <= 2_000 && |command.excerpt| <= 4_000
    && command.suggestion.assertions != []
    && hash(command.excerpt) == command.locator.excerptSha256
  }

  predicate InReview(status: ImportStatus) {
    status == ReviewRequired || status == ReadyToCompile
  }

  function IndexOfCandidate(candidates: seq<Candidate>, id: string): (r: Option<nat>)
    ensures r.Some? ==> r.value < |candidates| && candidates[r.value].id == id
    ensures r.None? ==> forall candidate | candidate in candidates :: candidate.id != id
  {
    if candidates == [] then None
    else if candidates[0].id == id then Some(0)
    else
      match IndexOfCandidate(candidates[1..], id)
      case None => None
      case Some(i) => Some(i + 1)
  }

  function Edited(candidate: Candidate, edit: Option<CandidateEdit>): Candidate {
    match edit
    case None => candidate
    case Some(edit) =>
      candidate.(statement := edit.statement, severity := edit.severity, suggestion := edit.suggestion, mapping := edit.mapping)
  }

  function Reviewed(candidate: Candidate, command: ReviewCommand, now: Time): Candidate {
    Edited(candidate, command.edit).(
      status := command.decision, review := Some(Review(command.reviewer, command.notes, now)), updatedAt := now)
  }

  function Manual(imported: Import, command: ManualCommand, id: string, now: Time): Candidate {
    Candidate(
      id, "MAN-" + id, FingerprintOf(imported, command.statement, command.locator), command.statement, command.locator,
      command.excerpt, command.severity, Some(command.suggestion), Ready, Approved,
      Some(Review(command.reviewer, "Manually added from source", now)), now)
  }

  // ---------------------------------------------------------------- one import and its candidates

  datatype Desk = Desk(imported: Import, candidates: seq<Candidate>)

  /** Re-derives the review state; only a state that is in review is touched. */
  function Refreshed(desk: Desk): Desk {
    desk.(imported := desk.imported.(
      status := if ReviewCompleteFor(desk.imported, desk.candidates) then ReadyToCompile else ReviewRequired))
  }

  function ReviewCandidate(desk: Desk, command: ReviewCommand, now: Time): Result<Desk, PolicyError> {
    if !ValidReview(command) then Err(InvalidRequest)
    else if !InReview(desk.imported.status) then Err(Conflicting)
    else
      match IndexOfCandidate(desk.candidates, command.candidateId)
      case None => Err(NotFound)
      case Some(i) =>
        if command.edit.Some? && !ValidEdit(command.edit.value) then Err(InvalidRequest)
        else if command.expectedUpdatedAt.Some? && command.expectedUpdatedAt.value != desk.candidates[i].updatedAt
        then Err(Conflicting)
        else Ok(Refreshed(desk.(candidates := desk.candidates[i := Reviewed(desk.candidates[i], command, now)])))
  }

  function AddManual(desk: Desk, command: ManualCommand, id: string, now: Time, hash: Hash): Result<Desk, PolicyError> {
    var candidate := Manual(desk.imported, command, id, now);
    if !ValidManual(command, hash) then Err(InvalidRequest)
    else if !InReview(desk.imported.status) then Err(Conflicting)
    else if exists other | other in desk.candidates :: other.fingerprint == candidate.fingerprint then Err(Conflicting)
    else Ok(Refreshed(desk.(candidates := desk.candidates + [candidate])))
  }

  function VerifySource(desk: Desk, verified: bool): Result<Desk, PolicyError> {
    if !InReview(desk.imported.status) then Err(Conflicting)
    else Ok(Refreshed(desk.(
           imported := desk.imported.(verification := if verified then Verified else VerificationRejected))))
  }

  predicate DistinctFingerprints(candidates: seq<Candidate>) {
    forall i, j | 0 <= i < j < |candidates| :: candidates[i].fingerprint != candidates[j].fingerprint
  }

  /** Replaces the candidates of an import unless one of them was reviewed. */
  function StoreExtraction(desk: Desk, candidates: seq<Candidate>, coverage: Coverage): Result<Desk, PolicyError> {
    if desk.imported.status != Extracting then Err(Conflicting)
    else if exists candidate | candidate in desk.candidates :: candidate.review.Some? then Err(Conflicting)
    else if !DistinctFingerprints(candidates) then Err(Conflicting)
    else Ok(Desk(desk.imported.(status := if coverage.failed != [] then FailedRetryable else ReviewRequired,
                                coverage := coverage), candidates))
  }

  // ---------------------------------------------------------------- compilation

  datatype Obligation = Obligation(id: nat, sourceId: string, key: string, statement: string, locator: Locator, review: Review)

  function RuleId(key: string): string {
    Replace(Lower(key), '-', '_') + "_v1"
  }

  function CompiledRuleOf(key: string, candidate: Candidate, suggestion: RuleSuggestion): CompiledRule {
    CompiledRule(RuleId(key), key, candidate.severity, suggestion.trigger, suggestion.assertions,
                 suggestion.evidenceRequired, ReportNotObservable)
  }

  datatype PolicyBundle = PolicyBundle(sources: seq<string>, obligations: seq<Obligation>, rules: seq<CompiledRule>)

  datatype CompileCommand = CompileCommand(key: string, title: string, version: nat, packId: nat, sourceId: string)

  /** What a pack must have to be a policy document. */
  predicate ValidDocument(key: string, rules: seq<CompiledRule>) {
    Trim(key) != [] && rules != [] && forall rule | rule in rules :: rule.assertions != []
  }

  predicate ReadyFor(imported: Import, candidates: seq<Candidate>) {
    ReviewCompleteFor(imported, candidates) && exists candidate | candidate in candidates :: IsApproved(candidate)
  }

  /** An approved candidate about to be compiled, under the key and source it is compiled with. */
  datatype Item = Item(sourceId: string, key: string, candidate: Candidate)

  predicate HasAllParts(item: Item) {
    item.candidate.review.Some? && item.candidate.suggestion.Some?
  }

  function ObligationOf(item: Item, id: nat): Obligation
    requires HasAllParts(item)
  {
    Obligation(id, item.sourceId, item.key, item.candidate.statement, item.candidate.locator, item.candidate.review.value)
  }

  function RuleOf(item: Item): CompiledRule
    requires HasAllParts(item)
  {
    CompiledRuleOf(item.key, item.candidate, item.candidate.suggestion.value)
  }

  /** The obligations of the items, numbered from the first fresh identifier on. */
  function ObligationsOf(items: seq<Item>, firstId: nat): (r: seq<Obligation>)
    requires forall item | item in items :: HasAllParts(item)
    ensures |r| == |items|
  {
    seq(|items|, i requires 0 <= i < |items| => ObligationOf(items[i], firstId + i))
  }

  function RulesOf(items: seq<Item>): (r: seq<CompiledRule>)
    requires forall item | item in items :: HasAllParts(item)
    ensures |r| == |items|
  {
    seq(|items|, i requires 0 <= i < |items| => RuleOf(items[i]))
  }

  /** The items of one import, in the order of its candidates. */
  function ItemsOf(sourceId: string, prefix: string, candidates: seq<Candidate>): seq<Item> {
    if candidates == [] then []
    else
      (if IsApproved(candidates[0]) then [Item(sourceId, prefix + candidates[0].key, candidates[0])] else [])
      + ItemsOf(sourceId, prefix, candidates[1..])
  }

  lemma {:induction false} ItemsOfContents(sourceId: string, prefix: string, candidates: seq<Candidate>)
    ensures forall item | item in ItemsOf(sourceId, prefix, candidates) ::
              && item.candidate in candidates && IsApproved(item.candidate)
              && item == Item(sourceId, prefix + item.candidate.key, item.candidate)
    ensures forall candidate | candidate in candidates && IsApproved(candidate) ::
              Item(sourceId, prefix + candidate.key, candidate) in ItemsOf(sourceId, prefix, candidates)
  {
    if candidates != [] {
      ItemsOfContents(sourceId, prefix, candidates[1..]);
    }
  }

  datatype Compilation = AlreadyCompiled(packId: nat) | NewPack(bundle: PolicyBundle)

  function CompileImport(desk: Desk, command: CompileCommand, firstId: nat): Result<Compilation, PolicyError> {
    if desk.imported.compiledPackId.Some? then Ok(AlreadyCompiled(desk.imported.compiledPackId.value))
    else if Trim(command.key) == [] || Trim(command.title) == [] || command.version == 0 then Err(InvalidRequest)
    else if !ReadyFor(desk.imported, desk.candidates) || desk.imported.status != ReadyToCompile then Err(Conflicting)
    else
      var items := ItemsOf(command.sourceId, "", desk.candidates);
      if exists item | item in items :: !HasAllParts(item) then Err(Conflicting)
      else if !ValidDocument(command.key, RulesOf(items)) then Err(InvalidRequest)
      else Ok(NewPack(PolicyBundle([command.sourceId], ObligationsOf(items, firstId), RulesOf(items))))
  }

  /** Compiling also marks the import. */
  function Compile(desk: Desk, command: CompileCommand, firstId: nat): Result<Desk, PolicyError> {
    match CompileImport(desk, command, firstId)
    case Err(error) => Err(error)
    case Ok(AlreadyCompiled(_)) => Ok(desk)
    case Ok(NewPack(_)) =>
      Ok(desk.(imported := desk.imported.(
        status := Compiled, compiledSourceId := Some(command.sourceId), compiledPackId := Some(command.packId))))
  }

  // ---------------------------------------------------------------- the workflow of an import

  datatype Action =
    | Transition(expected: ImportStatus, next: ImportStatus)
    | Parsed(segments: nat)
    | Extract(document: seq<Segment>, items: seq<ExtractedItem>, ids: seq<string>, coverage: Coverage, now: Time)
    | MarkFailure(status: ImportStatus)
    | AttachTransformation
    | Verify(verified: bool)
    | ReviewOne(review: ReviewCommand, now: Time)
    | AddOne(manual: ManualCommand, id: string, now: Time)
    | CompileOne(compile: CompileCommand, firstId: nat)
    | CompiledInCollection(sourceId: string, packId: nat)

  /** The transitions use cases ask for; the others belong to their own operations. */
  predicate Requested(expected: ImportStatus, next: ImportStatus) {
    next == Queued || (expected == Queued && next == Parsing)
  }

  /** One operation of the workflow; a refused operation changes nothing. */
  function Act(desk: Desk, action: Action, hash: Hash): Result<Desk, PolicyError> {
    var Desk(imported, candidates) := desk;
    match action
    case Transition(expected, next) =>
      if !CanTransition(expected, next) || !Requested(expected, next) then Err(InvalidRequest)
      else if imported.status != expected then Err(Conflicting)
      else Ok(desk.(imported := imported.(status := next)))
    case Parsed(segments) =>
      if imported.status != Parsing then Err(Conflicting)
      else Ok(desk.(imported := imported.(status := Extracting, coverage := Coverage(segments, 0, []))))
    case Extract(document, items, ids, coverage, now) =>
      if |ids| != |items| then Err(InvalidRequest)
      else
        (match ExtractAll(imported, document, items, ids, now, hash)
         case Err(error) => Err(error)
         case Ok(extracted) => StoreExtraction(desk, extracted, coverage))
    case MarkFailure(status) =>
      if status != NeedsOcr && status != FailedRetryable && status != FailedTerminal then Err(InvalidRequest)
      else Ok(desk.(imported := imported.(status := status)))
    case AttachTransformation =>
      if imported.status != NeedsOcr then Err(Conflicting)
      else Ok(desk.(imported := imported.(status := Queued, verification := Unverified)))
    case Verify(verified) => VerifySource(desk, verified)
    case ReviewOne(review, now) => ReviewCandidate(desk, review, now)
    case AddOne(manual, id, now) => AddManual(desk, manual, id, now, hash)
    case CompileOne(compile, firstId) => Compile(desk, compile, firstId)
    case CompiledInCollection(sourceId, packId) =>
      if imported.status != ReadyToCompile && imported.status != Compiled then Err(Conflicting)
      else if imported.compiledSourceId.Some? && imported.compiledSourceId.value != sourceId then Err(Conflicting)
      else Ok(desk.(imported := imported.(
             status := Compiled, compiledSourceId := Some(sourceId),
             compiledPackId := if imported.compiledPackId.Some? then imported.compiledPackId else Some(packId))))
  }

  function ActAll(desk: Desk, actions: seq<Action>, hash: Hash): Desk
    decreases |actions|
  {
    if actions == [] then desk
    else
      var before := ActAll(desk, actions[..|actions| - 1], hash);
      match Act(before, actions[|actions| - 1], hash)
      case Ok(after) => after
      case Err(_) => before
  }

  function NewImport(id: nat, sourceId: Uuid, sourceUrl: Option<string>, contentSha256: string): Desk {
    Desk(Import(id, sourceId, sourceUrl, contentSha256, Uploading, Unverified, Coverage(0, 0, []), None, None), [])
  }

  // ---------------------------------------------------------------- what the workflow keeps

  predicate SoundCandidate(candidate: Candidate) {
    && (candidate.status == Pending <==> candidate.review.None?)
    && IsSimpleUuid(candidate.id)
    && (candidate.key == "EXT-" + candidate.id || candidate.key == "MAN-" + candidate.id)
  }

  ghost predicate DistinctCandidateIds(candidates: seq<Candidate>) {
    forall i, j | 0 <= i < j < |candidates| :: candidates[i].id != candidates[j].id
  }

  ghost predicate SoundDesk(desk: Desk) {
    && (forall candidate | candidate in desk.candidates :: SoundCandidate(candidate))
    && DistinctCandidateIds(desk.candidates)
    && (InReview(desk.imported.status) ==>
          (desk.imported.status == ReadyToCompile <==> ReviewCompleteFor(desk.imported, desk.candidates)))
    && (desk.imported.compiledPackId.Some? <==> desk.imported.compiledSourceId.Some?)
  }

  /** The identifiers an action draws are fresh UUIDs. */
  ghost predicate DrawsFreshIds(desk: Desk, action: Action) {
    match action
    case Extract(_, _, ids, _, _) =>
      && (forall id | id in ids :: IsSimpleUuid(id))
      && (forall i, j | 0 <= i < j < |ids| :: ids[i] != ids[j])
    case AddOne(_, id, _) => IsSimpleUuid(id) && forall candidate | candidate in desk.candidates :: candidate.id != id
    case _ => true
  }

  lemma {:induction false} ExtractAllContents(
    imported: Import, document: seq<Segment>, items: seq<ExtractedItem>, ids: seq<string>, now: Time, hash: Hash)
    requires |ids| == |items|
    ensures var r := ExtractAll(imported, document, items, ids, now, hash);
            r.Ok? ==>
              && |r.value| == |items|
              && forall i | 0 <= i < |items| :: Extracted(imported, document, items[i], ids[i], now, hash) == Ok(r.value[i])
  {
    if items != [] {
      ExtractAllContents(imported, document, items[1..], ids[1..], now, hash);
    }
  }
}
