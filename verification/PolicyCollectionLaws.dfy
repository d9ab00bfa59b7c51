/** Collection compilation does not depend on order, refers to nothing it does not contain, and cannot clash. */
module PolicyCollectionLaws {
  import opened Wrappers
  import opened Sequences
  import opened Text
  import opened Evidence
  import opened PolicyReview
  import opened PolicyReviewLaws
  import opened PolicyCollection

  /** The same members in some order, each with the same candidates in some order. */
  ghost predicate Shuffled(a: seq<Member>, b: seq<Member>) {
    exists c: seq<Member> ::
      && multiset(a) == multiset(c)
      && |c| == |b|
      && forall i | 0 <= i < |c| ::
           c[i].imported == b[i].imported && multiset(c[i].candidates) == multiset(b[i].candidates)
  }

  // ---------------------------------------------------------------- what survives a shuffle

  /** What a candidate contributes, as a mapping over candidates. */
  function CandidateItems(sourceId: string, prefix: string): Candidate -> seq<Item> {
    (candidate: Candidate) =>
      if IsApproved(candidate) then [Item(sourceId, prefix + candidate.key, candidate)] else []
  }

  lemma {:induction false} ItemsOfIsFlatMap(sourceId: string, prefix: string, candidates: seq<Candidate>)
    ensures ItemsOf(sourceId, prefix, candidates) == FlatMap(CandidateItems(sourceId, prefix), candidates)
  {
    if candidates != [] {
      ItemsOfIsFlatMap(sourceId, prefix, candidates[1..]);
    }
  }

  lemma ItemsOfPermutation(sourceId: string, prefix: string, a: seq<Candidate>, b: seq<Candidate>)
    requires multiset(a) == multiset(b)
    ensures multiset(ItemsOf(sourceId, prefix, a)) == multiset(ItemsOf(sourceId, prefix, b))
  {
    ItemsOfIsFlatMap(sourceId, prefix, a);
    ItemsOfIsFlatMap(sourceId, prefix, b);
    FlatMapPermutation(CandidateItems(sourceId, prefix), a, b);
  }

  lemma ShuffledItems(a: seq<Member>, b: seq<Member>, stable: string -> string)
    requires Shuffled(a, b)
    ensures multiset(AllItems(a, stable)) == multiset(AllItems(b, stable))
    ensures multiset(FlatMap(MemberSource(stable), a)) == multiset(FlatMap(MemberSource(stable), b))
  {
    var c: seq<Member> :|
      && multiset(a) == multiset(c)
      && |c| == |b|
      && forall i | 0 <= i < |c| ::
           c[i].imported == b[i].imported && multiset(c[i].candidates) == multiset(b[i].candidates);
    FlatMapPermutation(MemberItems(stable), a, c);
    FlatMapPermutation(MemberSource(stable), a, c);
    forall i | 0 <= i < |c|
      ensures multiset(MemberItems(stable)(c[i])) == multiset(MemberItems(stable)(b[i]))
    {
      ItemsOfPermutation(SourceIdOf(c[i].imported, stable), ObligationNamespace(c[i].imported.sourceId) + "__",
                         c[i].candidates, b[i].candidates);
    }
    FlatMapPointwise(MemberItems(stable), c, b);
    FlatMapPointwise(MemberSource(stable), c, b);
  }

  lemma MemberShuffled(a: Member, b: Member)
    requires a.imported == b.imported && multiset(a.candidates) == multiset(b.candidates)
    ensures ReadyStatus(a) <==> ReadyStatus(b)
    ensures CompleteMember(a) <==> CompleteMember(b)
    ensures ApprovedOf(a) != [] <==> ApprovedOf(b) != []
  {
    PermutationMembers(a.candidates, b.candidates);
    FilterPermutation(IsApproved, a.candidates, b.candidates);
    assert |multiset(a.candidates)| == |a.candidates| && |multiset(b.candidates)| == |b.candidates|;
  }

  /** Whether some member satisfies a test that ignores the order of candidates does not depend on order. */
  lemma ShuffledExists(p: Member -> bool, a: seq<Member>, b: seq<Member>)
    requires Shuffled(a, b)
    requires forall x: Member, y: Member | x.imported == y.imported && multiset(x.candidates) == multiset(y.candidates) ::
               p(x) <==> p(y)
    ensures (exists member :: member in a && p(member)) <==> (exists member :: member in b && p(member))
  {
    var c: seq<Member> :|
      && multiset(a) == multiset(c)
      && |c| == |b|
      && forall i | 0 <= i < |c| ::
           c[i].imported == b[i].imported && multiset(c[i].candidates) == multiset(b[i].candidates);
    PermutationMembers(a, c);
    if member :| member in a && p(member) {
      var i :| 0 <= i < |c| && c[i] == member;
      assert b[i] in b && p(b[i]);
    }
    if member :| member in b && p(member) {
      var i :| 0 <= i < |b| && b[i] == member;
      assert c[i] in c && p(c[i]);
    }
  }

  predicate WrongStatus(member: Member) {
    !ReadyStatus(member)
  }

  predicate Incomplete(member: Member) {
    !CompleteMember(member)
  }

  predicate HasApproved(member: Member) {
    ApprovedOf(member) != []
  }

  lemma ShuffledStatus(a: seq<Member>, b: seq<Member>)
    requires Shuffled(a, b)
    ensures (exists member :: member in a && WrongStatus(member)) <==> (exists member :: member in b && WrongStatus(member))
  {
    forall x: Member, y: Member | x.imported == y.imported && multiset(x.candidates) == multiset(y.candidates)
      ensures WrongStatus(x) <==> WrongStatus(y)
    {
      MemberShuffled(x, y);
    }
    ShuffledExists(WrongStatus, a, b);
  }

  lemma ShuffledCompleteness(a: seq<Member>, b: seq<Member>)
    requires Shuffled(a, b)
    ensures (exists member :: member in a && Incomplete(member)) <==> (exists member :: member in b && Incomplete(member))
  {
    forall x: Member, y: Member | x.imported == y.imported && multiset(x.candidates) == multiset(y.candidates)
      ensures Incomplete(x) <==> Incomplete(y)
    {
      MemberShuffled(x, y);
    }
    ShuffledExists(Incomplete, a, b);
  }

  lemma ShuffledApproval(a: seq<Member>, b: seq<Member>)
    requires Shuffled(a, b)
    ensures (exists member :: member in a && HasApproved(member)) <==> (exists member :: member in b && HasApproved(member))
  {
    forall x: Member, y: Member | x.imported == y.imported && multiset(x.candidates) == multiset(y.candidates)
      ensures HasApproved(x) <==> HasApproved(y)
    {
      MemberShuffled(x, y);
    }
    ShuffledExists(HasApproved, a, b);
  }

  lemma ShuffledReadiness(a: seq<Member>, b: seq<Member>)
    requires Shuffled(a, b)
    ensures ReadyCollection(a) <==> ReadyCollection(b)
    ensures (exists member :: member in a && !ReadyStatus(member)) <==> (exists member :: member in b && !ReadyStatus(member))
  {
    ShuffledStatus(a, b);
    ShuffledCompleteness(a, b);
    ShuffledApproval(a, b);
    ReadinessByTests(a);
    ReadinessByTests(b);
    StatusByTest(a);
    StatusByTest(b);
  }

  lemma ReadinessByTests(members: seq<Member>)
    ensures ReadyCollection(members) <==>
              !(exists member :: member in members && Incomplete(member))
              && exists member :: member in members && HasApproved(member)
  {
    if ReadyCollection(members) {
      var member :| member in members && ApprovedOf(member) != [];
      assert HasApproved(member);
    }
    if exists member :: member in members && HasApproved(member) {
      var member :| member in members && HasApproved(member);
      assert ApprovedOf(member) != [];
    }
  }

  lemma StatusByTest(members: seq<Member>)
    ensures (exists member :: member in members && WrongStatus(member)) <==>
              (exists member :: member in members && !ReadyStatus(member))
  {
    if member :| member in members && !ReadyStatus(member) {
      assert WrongStatus(member);
    }
  }

  // ---------------------------------------------------------------- order independence

  /** An obligation without its fresh identifier. */
  function Erased(obligation: Obligation): Obligation {
    obligation.(id := 0)
  }

  function EraseAll(obligations: seq<Obligation>): (r: seq<Obligation>)
    ensures |r| == |obligations|
  {
    seq(|obligations|, i requires 0 <= i < |obligations| => Erased(obligations[i]))
  }

  function ItemRule(item: Item): seq<CompiledRule> {
    if HasAllParts(item) then [RuleOf(item)] else []
  }

  function ItemObligation(item: Item): seq<Obligation> {
    if HasAllParts(item) then [ObligationOf(item, 0)] else []
  }

  lemma {:induction false} BundlePartsAreFlatMaps(items: seq<Item>, firstId: nat)
    requires forall item | item in items :: HasAllParts(item)
    ensures RulesOf(items) == FlatMap(ItemRule, items)
    ensures EraseAll(ObligationsOf(items, firstId)) == FlatMap(ItemObligation, items)
  {
    if items != [] {
      BundlePartsAreFlatMaps(items[1..], firstId + 1);
      assert items[0] in items;
      assert RulesOf(items) == [RuleOf(items[0])] + RulesOf(items[1..]);
      assert ObligationsOf(items, firstId) == [ObligationOf(items[0], firstId)] + ObligationsOf(items[1..], firstId + 1);
      assert EraseAll(ObligationsOf(items, firstId))
          == [ObligationOf(items[0], 0)] + EraseAll(ObligationsOf(items[1..], firstId + 1));
    }
  }

  /** Sorting commutes with forgetting identifiers, which are not part of the key. */
  lemma {:induction false} InsertErased(x: Obligation, s: seq<Obligation>)
    ensures EraseAll(InsertByKey(ObligationKey, x, s)) == InsertByKey(ObligationKey, Erased(x), EraseAll(s))
  {
    if s != [] {
      assert EraseAll(s)[1..] == EraseAll(s[1..]);
      if Precedes(ObligationKey(s[0]), ObligationKey(x)) {
        InsertErased(x, s[1..]);
      }
    }
  }

  lemma {:induction false} SortErased(s: seq<Obligation>)
    ensures EraseAll(SortByKey(ObligationKey, s)) == SortByKey(ObligationKey, EraseAll(s))
  {
    if s != [] {
      SortErased(s[1..]);
      InsertErased(s[0], SortByKey(ObligationKey, s[1..]));
      assert EraseAll(s)[1..] == EraseAll(s[1..]);
    }
  }

  lemma KeysAreDistinct(items: seq<Item>, firstId: nat)
    requires Compiles(items)
    ensures DistinctBy(RuleKey, RulesOf(items))
    ensures DistinctBy(ObligationKey, EraseAll(ObligationsOf(items, firstId)))
  {
    forall i, j | 0 <= i < j < |items| ensures items[i].key != items[j].key && RuleId(items[i].key) != RuleId(items[j].key) {
      assert ItemRuleId(items[i]) != ItemRuleId(items[j]);
    }
    var rules, obligations := RulesOf(items), EraseAll(ObligationsOf(items, firstId));
    assert forall i | 0 <= i < |items| :: rules[i].id == RuleId(items[i].key);
    assert forall i | 0 <= i < |items| :: obligations[i].key == items[i].key;
  }

  /** Which rules and, up to identifiers, which obligations come out depends on the items only as a collection. */
  lemma SortedPartsForgetOrder(a: seq<Item>, b: seq<Item>, firstA: nat, firstB: nat)
    requires multiset(a) == multiset(b) && Compiles(a) && Compiles(b)
    ensures SortByKey(RuleKey, RulesOf(a)) == SortByKey(RuleKey, RulesOf(b))
    ensures EraseAll(SortByKey(ObligationKey, ObligationsOf(a, firstA)))
         == EraseAll(SortByKey(ObligationKey, ObligationsOf(b, firstB)))
  {
    BundlePartsAreFlatMaps(a, firstA);
    BundlePartsAreFlatMaps(b, firstB);
    FlatMapPermutation(ItemRule, a, b);
    FlatMapPermutation(ItemObligation, a, b);
    KeysAreDistinct(a, firstA);
    KeysAreDistinct(b, firstB);
    SortForgetsOrder(RuleKey, RulesOf(a), RulesOf(b));
    SortErased(ObligationsOf(a, firstA));
    SortErased(ObligationsOf(b, firstB));
    SortForgetsOrder(ObligationKey, EraseAll(ObligationsOf(a, firstA)), EraseAll(ObligationsOf(b, firstB)));
  }

  lemma CompilesPermutation(a: seq<Item>, b: seq<Item>)
    requires multiset(a) == multiset(b) && Compiles(a)
    ensures Compiles(b)
  {
    PermutationMembers(a, b);
    DistinctByPermutation(ItemRuleId, a, b);
  }

  /** The parts of two compilations that must agree. */
  predicate SameUpToIds(a: PolicyBundle, b: PolicyBundle) {
    a.rules == b.rules && EraseAll(a.obligations) == EraseAll(b.obligations) && a.sources == b.sources
  }

  lemma BundlesAgree(a: seq<Member>, b: seq<Member>, stable: string -> string, firstA: nat, firstB: nat)
    requires Shuffled(a, b) && Compiles(AllItems(a, stable)) && Compiles(AllItems(b, stable))
    ensures SameUpToIds(BundleOf(a, stable, firstA), BundleOf(b, stable, firstB))
  {
    ShuffledItems(a, b, stable);
    SortedPartsForgetOrder(AllItems(a, stable), AllItems(b, stable), firstA, firstB);
    SortTextForgetsOrder(FlatMap(MemberSource(stable), a), FlatMap(MemberSource(stable), b));
  }

  /** What a caller sees of a compilation, up to fresh identifiers. */
  predicate SameResult(a: Result<Compilation, PolicyError>, b: Result<Compilation, PolicyError>) {
    match a
    case Err(error) => b == Err(error)
    case Ok(AlreadyCompiled(packId)) => b == Ok(AlreadyCompiled(packId))
    case Ok(NewPack(bundle)) => b.Ok? && b.value.NewPack? && SameUpToIds(bundle, b.value.bundle)
  }

  lemma MembersAgree(key: string, a: seq<Member>, b: seq<Member>, stable: string -> string, firstA: nat, firstB: nat)
    requires Compiles(AllItems(a, stable)) <==> Compiles(AllItems(b, stable))
    requires Compiles(AllItems(a, stable)) ==> SameUpToIds(BundleOf(a, stable, firstA), BundleOf(b, stable, firstB))
    ensures SameResult(CompileMembers(key, a, stable, firstA), CompileMembers(key, b, stable, firstB))
  {
  }

  lemma CompilationAgrees(
    collection: Collection, a: seq<Member>, b: seq<Member>, stable: string -> string, firstA: nat, firstB: nat)
    requires ReadyCollection(a) <==> ReadyCollection(b)
    requires (exists member :: member in a && !ReadyStatus(member)) <==> (exists member :: member in b && !ReadyStatus(member))
    requires SameResult(CompileMembers(collection.key, a, stable, firstA), CompileMembers(collection.key, b, stable, firstB))
    ensures SameResult(CompileCollection(collection, a, stable, firstA), CompileCollection(collection, b, stable, firstB))
  {
  }

  /**
   * Neither the order of the members nor that of their candidates matters: shuffled inputs both compile or
   * both fail alike, and yield the same rules and, up to fresh identifiers, the same obligations.
   */
  lemma CompilationForgetsOrder(
    collection: Collection, a: seq<Member>, b: seq<Member>, stable: string -> string, firstA: nat, firstB: nat)
    requires Shuffled(a, b)
    ensures SameResult(CompileCollection(collection, a, stable, firstA), CompileCollection(collection, b, stable, firstB))
  {
    ShuffledReadiness(a, b);
    ShuffledCompiles(a, b, stable);
    if Compiles(AllItems(a, stable)) {
      BundlesAgree(a, b, stable, firstA, firstB);
    }
    MembersAgree(collection.key, a, b, stable, firstA, firstB);
    CompilationAgrees(collection, a, b, stable, firstA, firstB);
  }

  lemma ShuffledCompiles(a: seq<Member>, b: seq<Member>, stable: string -> string)
    requires Shuffled(a, b)
    ensures Compiles(AllItems(a, stable)) <==> Compiles(AllItems(b, stable))
  {
    ShuffledItems(a, b, stable);
    if Compiles(AllItems(a, stable)) {
      CompilesPermutation(AllItems(a, stable), AllItems(b, stable));
    }
    if Compiles(AllItems(b, stable)) {
      CompilesPermutation(AllItems(b, stable), AllItems(a, stable));
    }
  }

  // ---------------------------------------------------------------- what a compiled collection contains

  /** Rules strictly increasing by id, one obligation each, every obligation from a source of the bundle. */
  ghost predicate WellReferenced(bundle: PolicyBundle) {
    && StrictlySortedBy(RuleKey, bundle.rules)
    && StrictlySortedBy(ObligationKey, bundle.obligations)
    && |bundle.rules| == |bundle.obligations|
    && (forall obligation | obligation in bundle.obligations ::
          && obligation.sourceId in bundle.sources
          && exists rule :: rule in bundle.rules && Backs(rule, obligation))
    && (forall rule | rule in bundle.rules ::
          exists obligation :: obligation in bundle.obligations && Backs(rule, obligation))
  }

  lemma MembersOfSorted<T>(key: T -> string, s: seq<T>)
    ensures forall x :: x in SortByKey(key, s) <==> x in s
    ensures |SortByKey(key, s)| == |s|
  {
    SortByKeySorts(key, s);
    PermutationMembers(SortByKey(key, s), s);
    assert |multiset(SortByKey(key, s))| == |SortByKey(key, s)| && |multiset(s)| == |s|;
  }

  lemma ItemSourcesAreListed(members: seq<Member>, stable: string -> string)
    ensures forall item | item in AllItems(members, stable) :: item.sourceId in FlatMap(MemberSource(stable), members)
  {
    FlatMapMembers(MemberItems(stable), members);
    FlatMapMembers(MemberSource(stable), members);
    forall item | item in AllItems(members, stable) ensures item.sourceId in FlatMap(MemberSource(stable), members) {
      var member :| member in members && item in MemberItems(stable)(member);
      ItemsOfContents(SourceIdOf(member.imported, stable), ObligationNamespace(member.imported.sourceId) + "__",
                      member.candidates);
      assert item.sourceId in MemberSource(stable)(member);
    }
  }

  lemma SortedByDistinctKeys(items: seq<Item>, firstId: nat)
    requires Compiles(items)
    ensures StrictlySortedBy(RuleKey, SortByKey(RuleKey, RulesOf(items)))
    ensures StrictlySortedBy(ObligationKey, SortByKey(ObligationKey, ObligationsOf(items, firstId)))
  {
    KeysAreDistinct(items, firstId);
    var obligations := ObligationsOf(items, firstId);
    forall i, j | 0 <= i < j < |obligations| ensures ObligationKey(obligations[i]) != ObligationKey(obligations[j]) {
      assert ObligationKey(EraseAll(obligations)[i]) != ObligationKey(EraseAll(obligations)[j]);
    }
    SortedStrictly(RuleKey, RulesOf(items));
    SortedStrictly(ObligationKey, obligations);
  }

  predicate Backs(rule: CompiledRule, obligation: Obligation) {
    rule.obligationKey == obligation.key && rule.id == RuleId(obligation.key)
  }

  lemma PartsReferToEachOther(items: seq<Item>, firstId: nat)
    requires forall item | item in items :: HasAllParts(item)
    ensures forall obligation | obligation in ObligationsOf(items, firstId) ::
              exists rule :: rule in RulesOf(items) && Backs(rule, obligation)
    ensures forall rule | rule in RulesOf(items) ::
              exists obligation :: obligation in ObligationsOf(items, firstId) && Backs(rule, obligation)
  {
    var rules, obligations := RulesOf(items), ObligationsOf(items, firstId);
    forall i | 0 <= i < |items|
      ensures rules[i] in rules && obligations[i] in obligations && Backs(rules[i], obligations[i])
    {
      assert items[i] in items;
    }
  }

  lemma ObligationSourcesAreListed(items: seq<Item>, sources: seq<string>, firstId: nat)
    requires forall item | item in items :: HasAllParts(item) && item.sourceId in sources
    ensures forall obligation | obligation in ObligationsOf(items, firstId) :: obligation.sourceId in sources
  {
    assert forall i | 0 <= i < |items| :: items[i] in items;
  }

  lemma BundleIsWellReferenced(members: seq<Member>, stable: string -> string, firstId: nat)
    requires Compiles(AllItems(members, stable))
    ensures WellReferenced(BundleOf(members, stable, firstId))
  {
    var items, sources := AllItems(members, stable), FlatMap(MemberSource(stable), members);
    ItemSourcesAreListed(members, stable);
    ObligationSourcesAreListed(items, sources, firstId);
    PartsReferToEachOther(items, firstId);
    SortedByDistinctKeys(items, firstId);
    MembersOfSorted(Identity, sources);
    MembersOfSorted(RuleKey, RulesOf(items));
    MembersOfSorted(ObligationKey, ObligationsOf(items, firstId));
  }

  lemma NewPackIsTheBundle(collection: Collection, members: seq<Member>, stable: string -> string, firstId: nat)
    requires var result := CompileCollection(collection, members, stable, firstId); result.Ok? && result.value.NewPack?
    ensures Compiles(AllItems(members, stable))
    ensures CompileCollection(collection, members, stable, firstId).value.bundle == BundleOf(members, stable, firstId)
  {
  }

  /** A compiled collection is well referenced, whatever was compiled. */
  lemma CompiledCollectionsAreWellReferenced(
    collection: Collection, members: seq<Member>, stable: string -> string, firstId: nat)
    requires var result := CompileCollection(collection, members, stable, firstId); result.Ok? && result.value.NewPack?
    ensures WellReferenced(CompileCollection(collection, members, stable, firstId).value.bundle)
  {
    NewPackIsTheBundle(collection, members, stable, firstId);
    BundleIsWellReferenced(members, stable, firstId);
  }

  function CandidatesOf(member: Member): seq<Candidate> {
    member.candidates
  }

  /** The items of a collection are its approved candidates. */
  lemma AllItemsContents(members: seq<Member>, stable: string -> string)
    ensures forall item | item in AllItems(members, stable) ::
              item.candidate in FlatMap(CandidatesOf, members) && IsApproved(item.candidate)
    ensures forall candidate | candidate in FlatMap(CandidatesOf, members) && IsApproved(candidate) ::
              exists item :: item in AllItems(members, stable) && item.candidate == candidate
  {
    FlatMapMembers(MemberItems(stable), members);
    FlatMapMembers(CandidatesOf, members);
    forall item | item in AllItems(members, stable)
      ensures item.candidate in FlatMap(CandidatesOf, members) && IsApproved(item.candidate)
    {
      var member :| member in members && item in MemberItems(stable)(member);
      MemberItemsContents(member, stable);
      assert item.candidate in CandidatesOf(member);
    }
    forall candidate | candidate in FlatMap(CandidatesOf, members) && IsApproved(candidate)
      ensures exists item :: item in AllItems(members, stable) && item.candidate == candidate
    {
      var member :| member in members && candidate in CandidatesOf(member);
      MemberItemsContents(member, stable);
      var item :| item in MemberItems(stable)(member) && item.candidate == candidate;
      assert item in AllItems(members, stable);
    }
  }

  lemma SameRulesConserve(a: seq<CompiledRule>, b: seq<CompiledRule>, candidates: seq<Candidate>)
    requires ConservesRules(a, candidates) && forall rule :: rule in b <==> rule in a
    ensures ConservesRules(b, candidates)
  {
    forall candidate | candidate in candidates && IsApproved(candidate) ensures HasRule(b, candidate) {
      assert HasRule(a, candidate);
      var rule :| rule in a && Enforces(rule, candidate);
      assert rule in b;
    }
  }

  lemma SameObligationsConserve(a: seq<Obligation>, b: seq<Obligation>, candidates: seq<Candidate>)
    requires ConservesObligations(a, candidates) && forall obligation :: obligation in b <==> obligation in a
    ensures ConservesObligations(b, candidates)
  {
    forall candidate | candidate in candidates && IsApproved(candidate) ensures HasObligation(b, candidate) {
      assert HasObligation(a, candidate);
      var obligation :| obligation in a && Documents(obligation, candidate);
      assert obligation in b;
    }
  }

  lemma SortedItemsConserve(items: seq<Item>, sources: seq<string>, candidates: seq<Candidate>, firstId: nat)
    requires Itemize(items, candidates)
    ensures Conserves(PolicyBundle(sources, SortByKey(ObligationKey, ObligationsOf(items, firstId)),
                                   SortByKey(RuleKey, RulesOf(items))), candidates)
  {
    RulesAreConserved(items, candidates);
    ObligationsAreConserved(items, candidates, firstId);
    MembersOfSorted(RuleKey, RulesOf(items));
    MembersOfSorted(ObligationKey, ObligationsOf(items, firstId));
    SameRulesConserve(RulesOf(items), SortByKey(RuleKey, RulesOf(items)), candidates);
    SameObligationsConserve(ObligationsOf(items, firstId), SortByKey(ObligationKey, ObligationsOf(items, firstId)), candidates);
  }

  /** Compiling a collection drops nothing that was approved and invents nothing that was not. */
  lemma CollectionConserves(collection: Collection, members: seq<Member>, stable: string -> string, firstId: nat)
    requires var result := CompileCollection(collection, members, stable, firstId); result.Ok? && result.value.NewPack?
    ensures Conserves(CompileCollection(collection, members, stable, firstId).value.bundle, FlatMap(CandidatesOf, members))
  {
    NewPackIsTheBundle(collection, members, stable, firstId);
    AllItemsContents(members, stable);
    SortedItemsConserve(AllItems(members, stable), SortByKey(Identity, FlatMap(MemberSource(stable), members)),
                        FlatMap(CandidatesOf, members), firstId);
  }

  // ---------------------------------------------------------------- errors that never strike

  /** Members as the workflow leaves them: sound imports, no candidate in two of them. */
  ghost predicate SoundMembers(members: seq<Member>) {
    && (forall member | member in members :: SoundDesk(Desk(member.imported, member.candidates)))
    && (forall i, j | 0 <= i < j < |members| :: forall a, b | a in members[i].candidates && b in members[j].candidates ::
          a.id != b.id)
  }

  lemma SoundItemsAppend(a: seq<Item>, b: seq<Item>)
    requires SoundItems(a) && SoundItems(b)
    requires forall x, y | x in a && y in b :: x.candidate.id != y.candidate.id
    ensures SoundItems(a + b)
  {
    forall i, j | 0 <= i < j < |a + b| ensures (a + b)[i].candidate.id != (a + b)[j].candidate.id {
      if i < |a| <= j {
        assert a[i] in a && b[j - |a|] in b;
      }
    }
  }

  lemma {:induction false} AllItemsAreSound(members: seq<Member>, stable: string -> string)
    requires SoundMembers(members) && forall member | member in members :: CompleteMember(member)
    ensures SoundItems(AllItems(members, stable))
  {
    if members != [] {
      var first, rest := members[0], members[1..];
      assert first in members;
      assert forall i | 0 <= i < |rest| :: rest[i] == members[i + 1];
      AllItemsAreSound(rest, stable);
      var sourceId, prefix := SourceIdOf(first.imported, stable), ObligationNamespace(first.imported.sourceId) + "__";
      ItemsAreSound(sourceId, prefix, first.candidates);
      OwnItemsAreApart(members, stable);
      SoundItemsAppend(MemberItems(stable)(first), AllItems(rest, stable));
    }
  }

  /** The first member shares no candidate with the others. */
  lemma OwnItemsAreApart(members: seq<Member>, stable: string -> string)
    requires SoundMembers(members) && members != []
    ensures forall x, y | x in MemberItems(stable)(members[0]) && y in AllItems(members[1..], stable) ::
              x.candidate.id != y.candidate.id
  {
    MemberItemsContents(members[0], stable);
    forall x, y | x in MemberItems(stable)(members[0]) && y in AllItems(members[1..], stable)
      ensures x.candidate.id != y.candidate.id
    {
      var j := MemberOf(members[1..], stable, y);
      assert members[j + 1] == members[1..][j];
      Apart(members, j + 1, x.candidate, y.candidate);
    }
  }

  lemma Apart(members: seq<Member>, j: nat, a: Candidate, b: Candidate)
    requires SoundMembers(members) && 0 < j < |members|
    requires a in members[0].candidates && b in members[j].candidates
    ensures a.id != b.id
  {
  }

  /** Where an item comes from. */
  lemma MemberOf(members: seq<Member>, stable: string -> string, item: Item) returns (j: nat)
    requires item in AllItems(members, stable)
    ensures j < |members| && item.candidate in members[j].candidates
  {
    FlatMapMembers(MemberItems(stable), members);
    var member :| member in members && item in MemberItems(stable)(member);
    MemberItemsContents(member, stable);
    j :| 0 <= j < |members| && members[j] == member;
  }

  lemma MemberItemsContents(member: Member, stable: string -> string)
    ensures forall item | item in MemberItems(stable)(member) ::
              item.candidate in member.candidates && IsApproved(item.candidate)
    ensures forall candidate | candidate in member.candidates && IsApproved(candidate) ::
              exists item :: item in MemberItems(stable)(member) && item.candidate == candidate
  {
    ItemsOfContents(SourceIdOf(member.imported, stable), ObligationNamespace(member.imported.sourceId) + "__",
                    member.candidates);
  }

  lemma SoundItemsCompile(items: seq<Item>)
    requires SoundItems(items)
    ensures Compiles(items)
  {
    RulesAreSound(items);
    forall i, j | 0 <= i < j < |items| ensures ItemRuleId(items[i]) != ItemRuleId(items[j]) {
      assert RulesOf(items)[i].id != RulesOf(items)[j].id;
    }
  }

  /**
   * Over members that only the workflow has changed, a draft collection compiles exactly when it is ready
   * and every member is in a compilable state: the errors about missing reviews, missing rules and
   * duplicate rule ids never strike, even if two sources share a namespace. The pack is then sound.
   */
  lemma CollectionCompilesIff(collection: Collection, members: seq<Member>, stable: string -> string, firstId: nat)
    requires SoundMembers(members) && collection.compiledPackId.None? && Trim(collection.key) != []
    ensures CompileCollection(collection, members, stable, firstId).Ok? <==>
              && collection.status == Draft
              && (forall member | member in members :: ReadyStatus(member))
              && ReadyCollection(members)
    ensures CompileCollection(collection, members, stable, firstId).Ok? ==>
              var rules := CompileCollection(collection, members, stable, firstId).value.bundle.rules;
              rules != [] && SoundRules(rules)
  {
    if ReadyCollection(members) {
      AllItemsAreSound(members, stable);
      SoundItemsCompile(AllItems(members, stable));
      CollectionRulesAreSound(members, stable);
    }
  }

  lemma CollectionRulesAreSound(members: seq<Member>, stable: string -> string)
    requires ReadyCollection(members) && SoundItems(AllItems(members, stable)) && Compiles(AllItems(members, stable))
    ensures var rules := SortByKey(RuleKey, RulesOf(AllItems(members, stable)));
            && rules != [] && SoundRules(rules)
            && forall rule | rule in rules :: rule.assertions != []
  {
    var items := AllItems(members, stable);
    var rules := RulesOf(items);
    RulesAreSound(items);
    MembersOfSorted(RuleKey, rules);
    KeysAreDistinct(items, 0);
    SortedStrictly(RuleKey, rules);
    forall i, j | 0 <= i < j < |rules| ensures SortByKey(RuleKey, rules)[i].id != SortByKey(RuleKey, rules)[j].id {
      PrecedesIsStrict(SortByKey(RuleKey, rules)[i].id, SortByKey(RuleKey, rules)[j].id);
      assert Precedes(RuleKey(SortByKey(RuleKey, rules)[i]), RuleKey(SortByKey(RuleKey, rules)[j]));
    }
    var member :| member in members && ApprovedOf(member) != [];
    var candidate := ApprovedOf(member)[0];
    assert candidate in ApprovedOf(member);
    FlatMapMembers(MemberItems(stable), members);
    var sourceId, prefix := SourceIdOf(member.imported, stable), ObligationNamespace(member.imported.sourceId) + "__";
    ItemsOfContents(sourceId, prefix, member.candidates);
    assert Item(sourceId, prefix + candidate.key, candidate) in items;
  }
}
