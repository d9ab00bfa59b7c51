/** Compiling the reviewed imports of a collection into one policy pack. */
module PolicyCollection {
  import opened Wrappers
  import opened Sequences
  import opened Text
  import opened Evidence
  import opened PolicyReview

  /** A member import with its candidates, as loaded for compilation. */
  datatype Member = Member(imported: Import, candidates: seq<Candidate>)

  // ---------------------------------------------------------------- readiness

  datatype CollectionBlocker = NoSource | NoApprovedRule

  datatype CollectionReadiness = CollectionReadiness(
    sourceCount: nat, completeCount: nat, approvedCount: nat, blockers: seq<(nat, seq<Blocker>)>,
    collectionBlockers: seq<CollectionBlocker>)

  predicate IsReadyCollection(r: CollectionReadiness) {
    r.sourceCount > 0 && r.blockers == [] && r.collectionBlockers == []
  }

  predicate CompleteMember(member: Member) {
    ReviewCompleteFor(member.imported, member.candidates)
  }

  function ApprovedOf(member: Member): seq<Candidate> {
    Filter(IsApproved, member.candidates)
  }

  function ApprovedCount(members: seq<Member>): nat {
    |FlatMap(ApprovedOf, members)|
  }

  /** A collection is ready when it has members, all completely reviewed, with an approved candidate among them. */
  predicate ReadyCollection(members: seq<Member>) {
    && members != []
    && (forall member | member in members :: CompleteMember(member))
    && exists member | member in members :: ApprovedOf(member) != []
  }

  lemma {:induction false} ApprovedCountIsPositiveIff(members: seq<Member>)
    ensures ApprovedCount(members) > 0 <==> exists member :: member in members && ApprovedOf(member) != []
  {
    if members != [] {
      ApprovedCountIsPositiveIff(members[1..]);
      assert members == [members[0]] + members[1..];
    }
  }

  lemma ApprovedCountAppend(members: seq<Member>, member: Member)
    ensures ApprovedCount(members + [member]) == ApprovedCount(members) + |ApprovedOf(member)|
  {
    FlatMapConcat(ApprovedOf, members, [member]);
    FlatMapOne(ApprovedOf, member);
  }

  /** The counters describe the members counted so far. */
  ghost predicate Counts(r: CollectionReadiness, members: seq<Member>) {
    && r.completeCount == |Filter(CompleteMember, members)|
    && r.completeCount + |r.blockers| == |members|
    && (r.blockers == [] <==> forall member | member in members :: CompleteMember(member))
    && r.approvedCount == ApprovedCount(members)
  }

  method CountMember(r: CollectionReadiness, ghost members: seq<Member>, member: Member) returns (after: CollectionReadiness)
    requires Counts(r, members)
    ensures Counts(after, members + [member])
    ensures after.sourceCount == r.sourceCount && after.collectionBlockers == r.collectionBlockers
  {
    FilterConcat(CompleteMember, members, [member]);
    ApprovedCountAppend(members, member);
    var readiness := CalculateReadiness(member.imported, member.candidates);
    after := r;
    if ReviewComplete(readiness) {
      after := after.(completeCount := r.completeCount + 1);
    } else {
      after := after.(blockers := r.blockers + [(member.imported.id, ReviewBlockers(readiness))]);
    }
    after := after.(approvedCount := r.approvedCount + |Filter(IsApproved, member.candidates)|);
    assert forall other | other in members + [member] :: other in members || other == member;
  }

  /** Counts what is complete and approved, and collects what still blocks each member. */
  method CalculateCollectionReadiness(members: seq<Member>) returns (r: CollectionReadiness)
    ensures IsReadyCollection(r) <==> ReadyCollection(members)
    ensures r.sourceCount == |members|
    ensures members != [] ==> Counts(r, members)
  {
    r := CollectionReadiness(|members|, 0, 0, [], []);
    if members == [] {
      r := r.(collectionBlockers := [NoSource]);
      return;
    }
    for i := 0 to |members|
      invariant r.sourceCount == |members| && r.collectionBlockers == []
      invariant Counts(r, members[..i])
    {
      assert members[..i + 1] == members[..i] + [members[i]];
      r := CountMember(r, members[..i], members[i]);
    }
    assert members[..|members|] == members;
    ApprovedCountIsPositiveIff(members);
    if r.approvedCount == 0 {
      r := r.(collectionBlockers := [NoApprovedRule]);
    }
  }

  // ---------------------------------------------------------------- compilation

  /** The namespace a source's obligations are compiled under. */
  function ObligationNamespace(sourceId: Uuid): string {
    "s_" + sourceId[..12]
  }

  /** The identity of a source in compiled packs; once given it is kept. */
  function SourceIdOf(imported: Import, stable: string -> string): string {
    if imported.compiledSourceId.Some? then imported.compiledSourceId.value else stable(imported.sourceId)
  }

  function MemberItems(stable: string -> string): Member -> seq<Item> {
    (member: Member) =>
      ItemsOf(SourceIdOf(member.imported, stable), ObligationNamespace(member.imported.sourceId) + "__", member.candidates)
  }

  function MemberSource(stable: string -> string): Member -> seq<string> {
    (member: Member) => [SourceIdOf(member.imported, stable)]
  }

  function AllItems(members: seq<Member>, stable: string -> string): seq<Item> {
    FlatMap(MemberItems(stable), members)
  }

  function ItemRuleId(item: Item): string {
    RuleId(item.key)
  }

  function RuleKey(rule: CompiledRule): string {
    rule.id
  }

  function ObligationKey(obligation: Obligation): string {
    obligation.key
  }

  function Identity(s: string): string {
    s
  }

  // ---------------------------------------------------------------- sorting by a key

  function InsertByKey<T>(key: T -> string, x: T, s: seq<T>): seq<T> {
    if s == [] || !Precedes(key(s[0]), key(x)) then [x] + s else [s[0]] + InsertByKey(key, x, s[1..])
  }

  function SortByKey<T>(key: T -> string, s: seq<T>): seq<T> {
    if s == [] then [] else InsertByKey(key, s[0], SortByKey(key, s[1..]))
  }

  predicate SortedBy<T>(key: T -> string, s: seq<T>) {
    forall i, j | 0 <= i < j < |s| :: !Precedes(key(s[j]), key(s[i]))
  }

  predicate StrictlySortedBy<T>(key: T -> string, s: seq<T>) {
    forall i, j | 0 <= i < j < |s| :: Precedes(key(s[i]), key(s[j]))
  }

  lemma NotPrecedesIsTransitive(a: string, b: string, c: string)
    requires !Precedes(b, a) && !Precedes(c, b)
    ensures !Precedes(c, a)
  {
    PrecedesIsTotal(a, b);
    PrecedesIsTotal(b, c);
    PrecedesIsStrict(a, c);
    if Precedes(a, b) && Precedes(b, c) {
      PrecedesIsTransitive(a, b, c);
    }
  }

  lemma {:induction false} InsertByKeySorts<T>(key: T -> string, x: T, s: seq<T>)
    requires SortedBy(key, s)
    ensures SortedBy(key, InsertByKey(key, x, s))
    ensures multiset(InsertByKey(key, x, s)) == multiset{x} + multiset(s)
  {
    if s != [] {
      assert s == [s[0]] + s[1..];
      if Precedes(key(s[0]), key(x)) {
        InsertByKeySorts(key, x, s[1..]);
        var rest := InsertByKey(key, x, s[1..]);
        PrecedesIsStrict(key(s[0]), key(x));
        forall j | 0 <= j < |rest| ensures !Precedes(key(rest[j]), key(s[0])) {
          assert rest[j] in multiset(rest);
          assert rest[j] == x || rest[j] in s[1..];
        }
      } else {
        forall j | 0 <= j < |s| ensures !Precedes(key(s[j]), key(x)) {
          if j > 0 {
            NotPrecedesIsTransitive(key(x), key(s[0]), key(s[j]));
          }
        }
      }
    }
  }

  lemma {:induction false} SortByKeySorts<T>(key: T -> string, s: seq<T>)
    ensures SortedBy(key, SortByKey(key, s))
    ensures multiset(SortByKey(key, s)) == multiset(s)
  {
    if s != [] {
      SortByKeySorts(key, s[1..]);
      InsertByKeySorts(key, s[0], SortByKey(key, s[1..]));
      assert s == [s[0]] + s[1..];
    }
  }

  /** With distinct keys, sorting is strict and does not depend on the order sorted. */
  lemma SortedStrictly<T>(key: T -> string, s: seq<T>)
    requires DistinctBy(key, s)
    ensures StrictlySortedBy(key, SortByKey(key, s))
  {
    SortByKeySorts(key, s);
    DistinctByPermutation(key, s, SortByKey(key, s));
    var r := SortByKey(key, s);
    forall i, j | 0 <= i < j < |r| ensures Precedes(key(r[i]), key(r[j])) {
      PrecedesIsTotal(key(r[i]), key(r[j]));
    }
  }

  lemma SmallestIsFirst<T>(key: T -> string, a: seq<T>, b: seq<T>)
    requires StrictlySortedBy(key, a) && StrictlySortedBy(key, b)
    requires a != [] && b != [] && multiset(a) == multiset(b)
    ensures a[0] == b[0]
  {
    assert a[0] in multiset(b) && b[0] in multiset(a);
    var i :| 0 <= i < |b| && b[i] == a[0];
    var j :| 0 <= j < |a| && a[j] == b[0];
    PrecedesIsStrict(key(a[0]), key(b[0]));
  }

  lemma {:induction false} StrictlySortedIsUnique<T>(key: T -> string, a: seq<T>, b: seq<T>)
    requires StrictlySortedBy(key, a) && StrictlySortedBy(key, b)
    requires multiset(a) == multiset(b)
    ensures a == b
  {
    assert |a| == |multiset(a)| == |b|;
    if a != [] {
      SmallestIsFirst(key, a, b);
      var restA, restB := a[1..], b[1..];
      assert a == [a[0]] + restA && b == [b[0]] + restB;
      assert multiset(restA) == multiset(a) - multiset{a[0]};
      assert multiset(restB) == multiset(b) - multiset{b[0]};
      StrictlySortedIsUnique(key, restA, restB);
    }
  }

  /** Sorting permutations of the same distinctly keyed elements gives the same sequence. */
  lemma SortForgetsOrder<T>(key: T -> string, a: seq<T>, b: seq<T>)
    requires DistinctBy(key, a) && multiset(a) == multiset(b)
    ensures SortByKey(key, a) == SortByKey(key, b)
  {
    DistinctByPermutation(key, a, b);
    SortedStrictly(key, a);
    SortedStrictly(key, b);
    SortByKeySorts(key, a);
    SortByKeySorts(key, b);
    StrictlySortedIsUnique(key, SortByKey(key, a), SortByKey(key, b));
  }

  lemma SmallestTextIsFirst(a: seq<string>, b: seq<string>)
    requires SortedBy(Identity, a) && SortedBy(Identity, b)
    requires a != [] && b != [] && multiset(a) == multiset(b)
    ensures a[0] == b[0]
  {
    assert a[0] in multiset(b) && b[0] in multiset(a);
    var i :| 0 <= i < |b| && b[i] == a[0];
    var j :| 0 <= j < |a| && a[j] == b[0];
    assert i > 0 ==> !Precedes(Identity(b[i]), Identity(b[0]));
    assert j > 0 ==> !Precedes(Identity(a[j]), Identity(a[0]));
    PrecedesIsTotal(a[0], b[0]);
  }

  lemma {:induction false} SortedTextIsUnique(a: seq<string>, b: seq<string>)
    requires SortedBy(Identity, a) && SortedBy(Identity, b)
    requires multiset(a) == multiset(b)
    ensures a == b
  {
    assert |a| == |multiset(a)| == |b|;
    if a != [] {
      SmallestTextIsFirst(a, b);
      var restA, restB := a[1..], b[1..];
      assert a == [a[0]] + restA && b == [b[0]] + restB;
      assert multiset(restA) == multiset(a) - multiset{a[0]};
      assert multiset(restB) == multiset(b) - multiset{b[0]};
      SortedTextIsUnique(restA, restB);
    }
  }

  /** Texts sorted by themselves come out the same even when some of them repeat. */
  lemma SortTextForgetsOrder(a: seq<string>, b: seq<string>)
    requires multiset(a) == multiset(b)
    ensures SortByKey(Identity, a) == SortByKey(Identity, b)
  {
    SortByKeySorts(Identity, a);
    SortByKeySorts(Identity, b);
    SortedTextIsUnique(SortByKey(Identity, a), SortByKey(Identity, b));
  }

  // ---------------------------------------------------------------- the compiled bundle

  datatype CollectionStatus = Draft | CompiledCollection

  datatype Collection = Collection(key: string, status: CollectionStatus, compiledPackId: Option<nat>)

  predicate ReadyStatus(member: Member) {
    member.imported.status == ReadyToCompile || member.imported.status == Compiled
  }

  /** Items that compile: each with its review and rule, no two under the same rule id. */
  predicate Compiles(items: seq<Item>) {
    (forall item | item in items :: HasAllParts(item)) && DistinctBy(ItemRuleId, items)
  }

  function BundleOf(members: seq<Member>, stable: string -> string, firstId: nat): PolicyBundle
    requires forall item | item in AllItems(members, stable) :: HasAllParts(item)
  {
    var items := AllItems(members, stable);
    PolicyBundle(
      SortByKey(Identity, FlatMap(MemberSource(stable), members)),
      SortByKey(ObligationKey, ObligationsOf(items, firstId)),
      SortByKey(RuleKey, RulesOf(items)))
  }

  function CompileCollection(collection: Collection, members: seq<Member>, stable: string -> string, firstId: nat)
    : Result<Compilation, PolicyError>
  {
    if collection.compiledPackId.Some? then Ok(AlreadyCompiled(collection.compiledPackId.value))
    else if collection.status != Draft then Err(Conflicting)
    else if exists member | member in members :: !ReadyStatus(member) then Err(Conflicting)
    else if !ReadyCollection(members) then Err(Conflicting)
    else CompileMembers(collection.key, members, stable, firstId)
  }

  function CompileMembers(key: string, members: seq<Member>, stable: string -> string, firstId: nat)
    : Result<Compilation, PolicyError>
  {
    if !Compiles(AllItems(members, stable)) then Err(Conflicting)
    else
      var bundle := BundleOf(members, stable, firstId);
      if !ValidDocument(key, bundle.rules) then Err(InvalidRequest) else Ok(NewPack(bundle))
  }

  // ---------------------------------------------------------------- the compiling loop

  /** What the loop has pushed for the items it is done with. */
  ghost predicate Pushed(
    items: seq<Item>, firstId: nat, seen: set<string>, obligations: seq<Obligation>, rules: seq<CompiledRule>)
  {
    && Compiles(items)
    && obligations == ObligationsOf(items, firstId)
    && rules == RulesOf(items)
    && seen == (set item | item in items :: ItemRuleId(item))
  }

  /** Items that do not compile still do not with more behind them. */
  lemma RefusedByPrefix(items: seq<Item>, rest: seq<Item>)
    requires !Compiles(items)
    ensures !Compiles(items + rest)
  {
    var longer := items + rest;
    assert forall k | 0 <= k < |items| :: longer[k] == items[k];
    assert forall other | other in items :: other in longer;
  }

  method PushItem(
    item: Item, firstId: nat, ghost done: seq<Item>, seen: set<string>, obligations: seq<Obligation>, rules: seq<CompiledRule>)
    returns (pushed: bool, seen': set<string>, obligations': seq<Obligation>, rules': seq<CompiledRule>)
    requires Pushed(done, firstId, seen, obligations, rules)
    ensures pushed <==> Compiles(done + [item])
    ensures pushed ==> Pushed(done + [item], firstId, seen', obligations', rules')
  {
    pushed, seen', obligations', rules' := false, seen, obligations, rules;
    var more := done + [item];
    assert item in more && more[|done|] == item;
    if item.candidate.review.None? || item.candidate.suggestion.None? {
      return;
    }
    var ruleId := RuleId(item.key);
    if ruleId in seen {
      assert exists k :: 0 <= k < |done| && more[k] == done[k] && ItemRuleId(done[k]) == ruleId;
      return;
    }
    assert forall k | 0 <= k < |done| :: done[k] in done && more[k] == done[k];
    pushed, seen' := true, seen + {ruleId};
    obligations' := obligations + [ObligationOf(item, firstId + |obligations|)];
    rules' := rules + [RuleOf(item)];
  }

  /** The approved candidates of one member. */
  method PushMember(
    items: seq<Item>, firstId: nat, ghost done: seq<Item>, seen: set<string>, obligations: seq<Obligation>,
    rules: seq<CompiledRule>)
    returns (pushed: bool, seen': set<string>, obligations': seq<Obligation>, rules': seq<CompiledRule>)
    requires Pushed(done, firstId, seen, obligations, rules)
    ensures pushed <==> Compiles(done + items)
    ensures pushed ==> Pushed(done + items, firstId, seen', obligations', rules')
  {
    pushed, seen', obligations', rules' := true, seen, obligations, rules;
    ghost var now := done;
    assert done + items[..0] == done;
    for i := 0 to |items|
      invariant pushed && Pushed(now, firstId, seen', obligations', rules')
      invariant now == done + items[..i]
    {
      ghost var before := now;
      now := before + [items[i]];
      assert now == done + items[..i + 1];
      assert done + items == now + items[i + 1..];
      pushed, seen', obligations', rules' := PushItem(items[i], firstId, before, seen', obligations', rules');
      if !pushed {
        RefusedByPrefix(now, items[i + 1..]);
        return;
      }
    }
    assert items[..|items|] == items;
  }

  lemma AllItemsAppend(members: seq<Member>, member: Member, stable: string -> string)
    ensures AllItems(members + [member], stable) == AllItems(members, stable) + MemberItems(stable)(member)
  {
    FlatMapConcat(MemberItems(stable), members, [member]);
    FlatMapOne(MemberItems(stable), member);
  }

  /** All members, in the order given; the results are sorted afterwards. */
  method PushMembers(members: seq<Member>, stable: string -> string, firstId: nat)
    returns (pushed: bool, sources: seq<string>, obligations: seq<Obligation>, rules: seq<CompiledRule>)
    ensures pushed <==> Compiles(AllItems(members, stable))
    ensures pushed ==>
      && sources == FlatMap(MemberSource(stable), members)
      && obligations == ObligationsOf(AllItems(members, stable), firstId)
      && rules == RulesOf(AllItems(members, stable))
  {
    pushed, sources, obligations, rules := true, [], [], [];
    var seen: set<string> := {};
    for i := 0 to |members|
      invariant pushed && Pushed(AllItems(members[..i], stable), firstId, seen, obligations, rules)
      invariant sources == FlatMap(MemberSource(stable), members[..i])
    {
      assert members[..i + 1] == members[..i] + [members[i]];
      AllItemsAppend(members[..i], members[i], stable);
      FlatMapConcat(MemberSource(stable), members[..i], [members[i]]);
      FlatMapOne(MemberSource(stable), members[i]);
      sources := sources + [SourceIdOf(members[i].imported, stable)];
      pushed, seen, obligations, rules :=
        PushMember(MemberItems(stable)(members[i]), firstId, AllItems(members[..i], stable), seen, obligations, rules);
      if !pushed {
        assert members == members[..i + 1] + members[i + 1..];
        FlatMapConcat(MemberItems(stable), members[..i + 1], members[i + 1..]);
        RefusedByPrefix(AllItems(members[..i + 1], stable), AllItems(members[i + 1..], stable));
        return;
      }
    }
    assert members[..|members|] == members;
  }

  method CompilePolicyCollection(collection: Collection, members: seq<Member>, stable: string -> string, firstId: nat)
    returns (result: Result<Compilation, PolicyError>)
    ensures result == CompileCollection(collection, members, stable, firstId)
  {
    if collection.compiledPackId.Some? {
      return Ok(AlreadyCompiled(collection.compiledPackId.value));
    }
    if collection.status != Draft {
      return Err(Conflicting);
    }
    for i := 0 to |members|
      invariant forall k | 0 <= k < i :: ReadyStatus(members[k])
    {
      if members[i].imported.status != ReadyToCompile && members[i].imported.status != Compiled {
        assert members[i] in members && !ReadyStatus(members[i]);
        return Err(Conflicting);
      }
    }
    var readiness := CalculateCollectionReadiness(members);
    if !IsReadyCollection(readiness) {
      return Err(Conflicting);
    }
    var pushed, sources, obligations, rules := PushMembers(members, stable, firstId);
    if !pushed {
      return Err(Conflicting);
    }
    sources := SortByKey(Identity, sources);
    obligations := SortByKey(ObligationKey, obligations);
    rules := SortByKey(RuleKey, rules);
    if Trim(collection.key) == [] || rules == [] || exists rule | rule in rules :: rule.assertions == [] {
      return Err(InvalidRequest);
    }
    return Ok(NewPack(PolicyBundle(sources, obligations, rules)));
  }
}
