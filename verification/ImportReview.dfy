/** The review use cases as they run: a stored import and its candidates, changed in place. */
module ImportReview {
  import opened Wrappers
  import opened Sequences
  import opened Text
  import opened Evidence
  import opened PolicyReview

  /** Pushes an obligation and a rule for each item; nothing when one of them lacks its review or its rule. */
  method CompileItems(items: seq<Item>, firstId: nat) returns (compiled: Option<(seq<Obligation>, seq<CompiledRule>)>)
    ensures compiled.None? <==> exists item :: item in items && !HasAllParts(item)
    ensures compiled.Some? ==> compiled.value == (ObligationsOf(items, firstId), RulesOf(items))
  {
    var obligations: seq<Obligation>, rules: seq<CompiledRule> := [], [];
    for i := 0 to |items|
      invariant forall item | item in items[..i] :: HasAllParts(item)
      invariant obligations == ObligationsOf(items[..i], firstId)
      invariant rules == RulesOf(items[..i])
    {
      assert items[i] in items;
      if items[i].candidate.review.None? || items[i].candidate.suggestion.None? {
        return None;
      }
      assert items[..i + 1] == items[..i] + [items[i]];
      obligations := obligations + [ObligationOf(items[i], firstId + i)];
      rules := rules + [RuleOf(items[i])];
    }
    assert items[..|items|] == items;
    return Some((obligations, rules));
  }

  class ReviewDesk {
    const hash: Hash
    var imported: Import
    var candidates: seq<Candidate>

    function Rows(): Desk
      reads this
    {
      Desk(imported, candidates)
    }

    constructor (desk: Desk, hash: Hash)
      ensures Rows() == desk && this.hash == hash
    {
      imported, candidates, this.hash := desk.imported, desk.candidates, hash;
    }

    /** Stores the review state the gates give. */
    method RefreshReadiness()
      modifies this`imported
      ensures Rows() == Refreshed(old(Rows()))
    {
      var readiness := CalculateReadiness(imported, candidates);
      imported := imported.(status := if ReviewComplete(readiness) then ReadyToCompile else ReviewRequired);
    }

    method ReviewPolicyCandidate(command: ReviewCommand, now: Time) returns (result: Result<Candidate, PolicyError>)
      modifies this
      ensures match ReviewCandidate(old(Rows()), command, now)
              case Ok(desk) =>
                && Rows() == desk
                && result.Ok? && result.value in candidates
                && result.value.status == command.decision && result.value.review.Some?
              case Err(error) => Rows() == old(Rows()) && result == Err(error)
    {
      if Trim(command.reviewer) == [] || |command.reviewer| > 320 || |command.notes| > 4_000
         || command.decision == Pending {
        return Err(InvalidRequest);
      }
      if !InReview(imported.status) {
        return Err(Conflicting);
      }
      var found := IndexOfCandidate(candidates, command.candidateId);
      if found.None? {
        return Err(NotFound);
      }
      var before := candidates[found.value];
      var candidate := before;
      if command.edit.Some? {
        var edit := command.edit.value;
        if !ValidEdit(edit) {
          return Err(InvalidRequest);
        }
        candidate := candidate.(
          statement := edit.statement, severity := edit.severity, suggestion := edit.suggestion, mapping := edit.mapping);
      }
      candidate := candidate.(
        status := command.decision, review := Some(Review(command.reviewer, command.notes, now)), updatedAt := now);
      if command.expectedUpdatedAt.Some? && command.expectedUpdatedAt.value != before.updatedAt {
        return Err(Conflicting);
      }
      candidates := candidates[found.value := candidate];
      assert candidates[found.value] in candidates;
      RefreshReadiness();
      return Ok(candidate);
    }

    method AddManualPolicyCandidate(command: ManualCommand, id: string, now: Time)
      returns (result: Result<Candidate, PolicyError>)
      modifies this
      ensures match AddManual(old(Rows()), command, id, now, hash)
              case Ok(desk) => Rows() == desk && result == Ok(Manual(old(imported), command, id, now))
              case Err(error) => Rows() == old(Rows()) && result == Err(error)
    {
      if !ValidManual(command, hash) {
        return Err(InvalidRequest);
      }
      if !InReview(imported.status) {
        return Err(Conflicting);
      }
      var candidate := Manual(imported, command, id, now);
      if exists other | other in candidates :: other.fingerprint == candidate.fingerprint {
        return Err(Conflicting);
      }
      candidates := candidates + [candidate];
      RefreshReadiness();
      return Ok(candidate);
    }

    /** Compiles the approved candidates of a ready import and marks it. */
    method CompilePolicyImport(command: CompileCommand, firstId: nat) returns (result: Result<Compilation, PolicyError>)
      modifies this`imported
      ensures result == CompileImport(old(Rows()), command, firstId)
      ensures match Compile(old(Rows()), command, firstId)
              case Ok(desk) => Rows() == desk
              case Err(_) => Rows() == old(Rows())
    {
      if imported.compiledPackId.Some? {
        return Ok(AlreadyCompiled(imported.compiledPackId.value));
      }
      if Trim(command.key) == [] || Trim(command.title) == [] || command.version == 0 {
        return Err(InvalidRequest);
      }
      var readiness := CalculateReadiness(imported, candidates);
      ReadinessMeaning(readiness);
      if !IsReady(readiness) || imported.status != ReadyToCompile {
        return Err(Conflicting);
      }
      assert ReadyFor(imported, candidates);
      var items := ItemsOf(command.sourceId, "", candidates);
      var compiled := CompileItems(items, firstId);
      if compiled.None? {
        return Err(Conflicting);
      }
      var (obligations, rules) := compiled.value;
      if Trim(command.key) == [] || rules == [] || exists rule | rule in rules :: rule.assertions == [] {
        return Err(InvalidRequest);
      }
      imported := imported.(
        status := Compiled, compiledSourceId := Some(command.sourceId), compiledPackId := Some(command.packId));
      return Ok(NewPack(PolicyBundle([command.sourceId], obligations, rules)));
    }
  }
}
