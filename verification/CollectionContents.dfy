/** What a compiled collection holds of each of its members, under which names, and which sources it cites. */
module CollectionContents {
  import opened Wrappers
  import opened Sequences
  import opened Text
  import opened Evidence
  import opened PolicyReview
  import opened PolicyReviewLaws
  import opened PolicyCollection
  import opened PolicyCollectionLaws
  import opened ReviewLaws

  /** A collection is ready if and only if it has members, each completely reviewed, and something is approved. */
  lemma CollectionReadyIff(members: seq<Member>)
    ensures ReadyCollection(members) <==>
              && |members| > 0
              && (forall member | member in members :: ReviewCompleteFor(member.imported, member.candidates))
              && exists member, candidate | member in members && candidate in member.candidates ::
                   candidate.status == Approved
  {
    forall member | member in members
      ensures ApprovedOf(member) != [] <==> exists candidate | candidate in member.candidates :: candidate.status == Approved
    {
      SomeApprovedIff(member);
    }
  }

  lemma SomeApprovedIff(member: Member)
    ensures ApprovedOf(member) != [] <==> exists candidate | candidate in member.candidates :: candidate.status == Approved
  {
    if ApprovedOf(member) != [] {
      assert ApprovedOf(member)[0] in ApprovedOf(member);
    }
    if candidate :| candidate in member.candidates && candidate.status == Approved {
      assert candidate in ApprovedOf(member);
    }
  }

  /** The key of a member's candidate in the pack: its own, behind the first half-dozen bytes of its source's identity. */
  function KeyIn(member: Member, candidate: Candidate): string {
    "s_" + member.imported.sourceId[..12] + "__" + candidate.key
  }

  /** The source a member is cited as: the one it was compiled under before, or else the stable one. */
  function SourceOf(member: Member, stable: string -> string): string {
    match member.imported.compiledSourceId
    case Some(sourceId) => sourceId
    case None => stable(member.imported.sourceId)
  }

  /** The rule and the obligation stand for this member's candidate. */
  predicate StandIn(rule: CompiledRule, obligation: Obligation, member: Member, candidate: Candidate, stable: string -> string) {
    && Enforces(rule, candidate) && Documents(obligation, candidate)
    && rule.id == RuleId(KeyIn(member, candidate)) && rule.obligationKey == obligation.key == KeyIn(member, candidate)
    && rule.onMissingEvidence == ReportNotObservable
    && obligation.sourceId == SourceOf(member, stable)
  }

  predicate IsListed(bundle: PolicyBundle, member: Member, candidate: Candidate, stable: string -> string) {
    exists rule, obligation | rule in bundle.rules && obligation in bundle.obligations ::
      StandIn(rule, obligation, member, candidate, stable)
  }

  predicate RuleIsFrom(rule: CompiledRule, bundle: PolicyBundle, members: seq<Member>, stable: string -> string) {
    exists member, candidate, obligation |
      member in members && candidate in member.candidates && obligation in bundle.obligations ::
      candidate.status == Approved && StandIn(rule, obligation, member, candidate, stable)
  }

  predicate ObligationIsFrom(obligation: Obligation, bundle: PolicyBundle, members: seq<Member>, stable: string -> string) {
    exists member, candidate, rule | member in members && candidate in member.candidates && rule in bundle.rules ::
      candidate.status == Approved && StandIn(rule, obligation, member, candidate, stable)
  }

  lemma ItemStandsIn(items: seq<Item>, firstId: nat, i: nat, member: Member, stable: string -> string)
    requires forall item | item in items :: HasAllParts(item)
    requires i < |items| && items[i] in MemberItems(stable)(member)
    ensures StandIn(RulesOf(items)[i], ObligationsOf(items, firstId)[i], member, items[i].candidate, stable)
    ensures items[i].candidate in member.candidates && items[i].candidate.status == Approved
  {
    var sourceId, prefix := SourceIdOf(member.imported, stable), ObligationNamespace(member.imported.sourceId) + "__";
    ItemsOfContents(sourceId, prefix, member.candidates);
    assert items[i] in items;
    assert prefix + items[i].candidate.key == KeyIn(member, items[i].candidate);
  }

  /** Some item comes from the candidate, and each item from some member. */
  lemma ItemOf(members: seq<Member>, stable: string -> string, member: Member, candidate: Candidate) returns (i: nat)
    requires member in members && candidate in member.candidates && candidate.status == Approved
    ensures i < |AllItems(members, stable)| && AllItems(members, stable)[i] in MemberItems(stable)(member)
    ensures AllItems(members, stable)[i].candidate == candidate
  {
    var sourceId, prefix := SourceIdOf(member.imported, stable), ObligationNamespace(member.imported.sourceId) + "__";
    ItemsOfContents(sourceId, prefix, member.candidates);
    FlatMapMembers(MemberItems(stable), members);
    var item := Item(sourceId, prefix + candidate.key, candidate);
    assert item in MemberItems(stable)(member);
    assert item in AllItems(members, stable);
    i :| 0 <= i < |AllItems(members, stable)| && AllItems(members, stable)[i] == item;
  }

  lemma OwnerOf(members: seq<Member>, stable: string -> string, i: nat) returns (member: Member)
    requires i < |AllItems(members, stable)|
    ensures member in members && AllItems(members, stable)[i] in MemberItems(stable)(member)
  {
    FlatMapMembers(MemberItems(stable), members);
    var item := AllItems(members, stable)[i];
    assert item in AllItems(members, stable);
    member :| member in members && item in MemberItems(stable)(member);
  }

  /**
   * A compiled collection has a rule and an obligation for every approved candidate of every member, under a
   * key that names its source, and none besides; and it cites exactly its members' sources.
   */
  lemma CollectionListsTheApproved(collection: Collection, members: seq<Member>, stable: string -> string, firstId: nat)
    requires var result := CompileCollection(collection, members, stable, firstId); result.Ok? && result.value.NewPack?
    ensures var bundle := CompileCollection(collection, members, stable, firstId).value.bundle;
            && (forall member, candidate |
                  member in members && candidate in member.candidates && candidate.status == Approved ::
                  IsListed(bundle, member, candidate, stable))
            && (forall rule | rule in bundle.rules :: RuleIsFrom(rule, bundle, members, stable))
            && (forall obligation | obligation in bundle.obligations :: ObligationIsFrom(obligation, bundle, members, stable))
            && (forall source :: source in bundle.sources <==>
                  exists member | member in members :: source == SourceOf(member, stable))
  {
    NewPackIsTheBundle(collection, members, stable, firstId);
    forall member, candidate | member in members && candidate in member.candidates && candidate.status == Approved
      ensures IsListed(BundleOf(members, stable, firstId), member, candidate, stable)
    {
      ApprovedIsListed(members, stable, firstId, member, candidate);
    }
    forall rule | rule in BundleOf(members, stable, firstId).rules
      ensures RuleIsFrom(rule, BundleOf(members, stable, firstId), members, stable)
    {
      ListedRuleIsFrom(members, stable, firstId, rule);
    }
    forall obligation | obligation in BundleOf(members, stable, firstId).obligations
      ensures ObligationIsFrom(obligation, BundleOf(members, stable, firstId), members, stable)
    {
      ListedObligationIsFrom(members, stable, firstId, obligation);
    }
    SourcesAreTheMembers(members, stable);
  }

  lemma BundleMembers(members: seq<Member>, stable: string -> string, firstId: nat)
    requires Compiles(AllItems(members, stable))
    ensures var (bundle, items) := (BundleOf(members, stable, firstId), AllItems(members, stable));
            && (forall rule :: rule in bundle.rules <==> rule in RulesOf(items))
            && (forall obligation :: obligation in bundle.obligations <==> obligation in ObligationsOf(items, firstId))
  {
    MembersOfSorted(RuleKey, RulesOf(AllItems(members, stable)));
    MembersOfSorted(ObligationKey, ObligationsOf(AllItems(members, stable), firstId));
  }

  /** The rule and the obligation at a place of the unsorted pack. */
  lemma PlaceInBundle(members: seq<Member>, stable: string -> string, firstId: nat, i: nat)
    requires Compiles(AllItems(members, stable)) && i < |AllItems(members, stable)|
    ensures var (bundle, items) := (BundleOf(members, stable, firstId), AllItems(members, stable));
            RulesOf(items)[i] in bundle.rules && ObligationsOf(items, firstId)[i] in bundle.obligations
  {
    BundleMembers(members, stable, firstId);
    assert RulesOf(AllItems(members, stable))[i] in RulesOf(AllItems(members, stable));
    assert ObligationsOf(AllItems(members, stable), firstId)[i] in ObligationsOf(AllItems(members, stable), firstId);
  }

  lemma ApprovedIsListed(members: seq<Member>, stable: string -> string, firstId: nat, member: Member, candidate: Candidate)
    requires Compiles(AllItems(members, stable))
    requires member in members && candidate in member.candidates && candidate.status == Approved
    ensures IsListed(BundleOf(members, stable, firstId), member, candidate, stable)
  {
    var i := ItemOf(members, stable, member, candidate);
    ItemStandsIn(AllItems(members, stable), firstId, i, member, stable);
    PlaceInBundle(members, stable, firstId, i);
  }

  lemma ListedRuleIsFrom(members: seq<Member>, stable: string -> string, firstId: nat, rule: CompiledRule)
    requires Compiles(AllItems(members, stable)) && rule in BundleOf(members, stable, firstId).rules
    ensures RuleIsFrom(rule, BundleOf(members, stable, firstId), members, stable)
  {
    BundleMembers(members, stable, firstId);
    var i: nat :| i < |AllItems(members, stable)| && RulesOf(AllItems(members, stable))[i] == rule;
    var member := OwnerOf(members, stable, i);
    ItemStandsIn(AllItems(members, stable), firstId, i, member, stable);
    PlaceInBundle(members, stable, firstId, i);
  }

  lemma ListedObligationIsFrom(members: seq<Member>, stable: string -> string, firstId: nat, obligation: Obligation)
    requires Compiles(AllItems(members, stable)) && obligation in BundleOf(members, stable, firstId).obligations
    ensures ObligationIsFrom(obligation, BundleOf(members, stable, firstId), members, stable)
  {
    BundleMembers(members, stable, firstId);
    var i: nat :| i < |AllItems(members, stable)| && ObligationsOf(AllItems(members, stable), firstId)[i] == obligation;
    var member := OwnerOf(members, stable, i);
    ItemStandsIn(AllItems(members, stable), firstId, i, member, stable);
    PlaceInBundle(members, stable, firstId, i);
  }

  lemma SourcesAreTheMembers(members: seq<Member>, stable: string -> string)
    ensures forall source :: source in SortByKey(Identity, FlatMap(MemberSource(stable), members)) <==>
              exists member | member in members :: source == SourceOf(member, stable)
  {
    MembersOfSorted(Identity, FlatMap(MemberSource(stable), members));
    FlatMapMembers(MemberSource(stable), members);
    forall member: Member, source ensures source in MemberSource(stable)(member) <==> source == SourceOf(member, stable) {
    }
  }

  // ---------------------------------------------------------------- counters

  /** The counters of a collection's readiness: complete members, and approved candidates over all of them. */
  lemma CountersMeaning(r: CollectionReadiness, members: seq<Member>)
    requires Counts(r, members)
    ensures r.completeCount
         == |Filter((member: Member) => ReviewCompleteFor(member.imported, member.candidates), members)|
    ensures r.approvedCount == |Filter((candidate: Candidate) => candidate.status == Approved, FlatMap(CandidatesOf, members))|
  {
    SameMembersKept(CompleteMember, (member: Member) => ReviewCompleteFor(member.imported, member.candidates), members);
    ApprovedOverAll(members);
  }

  lemma {:induction false} SameMembersKept(p: Member -> bool, q: Member -> bool, members: seq<Member>)
    requires forall member :: p(member) == q(member)
    ensures Filter(p, members) == Filter(q, members)
  {
    if members != [] {
      SameMembersKept(p, q, members[1..]);
    }
  }

  lemma {:induction false} SameCandidatesKept(p: Candidate -> bool, q: Candidate -> bool, candidates: seq<Candidate>)
    requires forall candidate :: p(candidate) == q(candidate)
    ensures Filter(p, candidates) == Filter(q, candidates)
  {
    if candidates != [] {
      SameCandidatesKept(p, q, candidates[1..]);
    }
  }

  lemma {:induction false} ApprovedOverAll(members: seq<Member>)
    ensures ApprovedCount(members)
         == |Filter((candidate: Candidate) => candidate.status == Approved, FlatMap(CandidatesOf, members))|
  {
    var approved := (candidate: Candidate) => candidate.status == Approved;
    if members != [] {
      ApprovedOverAll(members[1..]);
      FilterConcat(approved, members[0].candidates, FlatMap(CandidatesOf, members[1..]));
      SameCandidatesKept(IsApproved, approved, members[0].candidates);
    }
  }
}
