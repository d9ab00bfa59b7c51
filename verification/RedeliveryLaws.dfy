/**
 * When delivering a batch again is harmless: always, as long as no counted span is lost; and exactly when a
 * delivery, first or repeated, does anything at all.
 */
module RedeliveryLaws {
  import opened Wrappers
  import opened Evidence
  import opened RunDomain
  import opened RunStore
  import opened RunProtocol
  import opened RunInvariant
  import opened RunSafety
  import opened RunStamps
  import opened Redelivery
  import Ingest

  // ---------------------------------------------------------------- the count along a schedule

  /** No action of the schedule loses a counted span. */
  ghost predicate CountIsNeverLost(env: Env, start: World, schedule: seq<Action>) {
    forall k | 0 <= k < |schedule| ::
      var world := RunStamps.At(env, start, schedule, k);
      Stepping(world, schedule[k]).Some? ==>
        !LosesCount(world.store, Stepping(world, schedule[k]).value, schedule[k].input)
  }

  /** The span count is right before, between and after the actions of a schedule. */
  ghost predicate ExactAlong(env: Env, world: World, schedule: seq<Action>) {
    forall k | 0 <= k <= |schedule| :: CountIsExact(RunStamps.At(env, world, schedule, k).store)
  }

  lemma ReceiveKeepsCount(store: Store, span: Span, receivedAt: Time, maxSpans: nat)
    requires CountIsExact(store)
    ensures CountIsExact(InsertSpan(store, span, receivedAt, maxSpans).0)
  {
    AssignedAppend(store.spans, Ingested(span, true));
    AssignedAppend(store.spans, Ingested(span, false));
  }

  lemma {:induction false} CountStaysExact(env: Env, start: World, schedule: seq<Action>, k: nat)
    requires Initial(start) && k <= |schedule| && CountIsNeverLost(env, start, schedule)
    ensures CountIsExact(RunStamps.At(env, start, schedule, k).store)
  {
    if k > 0 {
      CountStaysExact(env, start, schedule, k - 1);
      ScheduleKeeps(env, start, schedule[..k - 1]);
      AtStep(env, start, schedule, k - 1);
      var world, action := RunStamps.At(env, start, schedule, k - 1), schedule[k - 1];
      if Stepping(world, action).Some? {
        CountIsLostIff(env, world.store, Stepping(world, action).value, action.input);
      } else if action.Receive? {
        ReceiveKeepsCount(world.store, action.span, action.receivedAt, action.maxSpans);
      }
    }
  }

  /** In particular no span is lost when no write puts a stamp on the row under which another process holds it. */
  lemma UnsharedLosesNoCount(env: Env, start: World, schedule: seq<Action>)
    requires Initial(start) && UnsharedSchedule(env, start, schedule)
    ensures CountIsNeverLost(env, start, schedule)
  {
    forall k | 0 <= k < |schedule|
      ensures !Breaks(RunStamps.At(env, start, schedule, k), schedule[k])
    {
      NobodyIsEverOvertaken(env, start, schedule, k);
      NothingOvertakenNothingBroken(RunStamps.At(env, start, schedule, k), schedule[k]);
    }
  }

  lemma ExactParts(env: Env, world: World, first: seq<Action>, rest: seq<Action>)
    requires ExactAlong(env, world, first + rest)
    ensures ExactAlong(env, world, first)
    ensures ExactAlong(env, Execute(env, world, first), rest)
  {
    forall k | 0 <= k <= |first| ensures CountIsExact(RunStamps.At(env, world, first, k).store) {
      assert (first + rest)[..k] == first[..k];
      assert CountIsExact(RunStamps.At(env, world, first + rest, k).store);
    }
    forall k | 0 <= k <= |rest| ensures CountIsExact(RunStamps.At(env, Execute(env, world, first), rest, k).store) {
      assert (first + rest)[..|first| + k] == first + rest[..k];
      ExecuteConcat(env, world, first, rest[..k]);
      assert CountIsExact(RunStamps.At(env, world, first + rest, |first| + k).store);
    }
  }

  lemma ExactAtEnd(env: Env, world: World, schedule: seq<Action>)
    requires ExactAlong(env, world, schedule)
    ensures CountIsExact(world.store) && CountIsExact(Execute(env, world, schedule).store)
  {
    assert schedule[..0] == [] && schedule[..|schedule|] == schedule;
    assert CountIsExact(RunStamps.At(env, world, schedule, 0).store);
    assert CountIsExact(RunStamps.At(env, world, schedule, |schedule|).store);
  }

  // ---------------------------------------------------------------- a full run stays full

  /** The run has no room for a span of the gateway. */
  predicate Full(store: Store, maxSpans: nat) {
    |Assigned(store.spans)| >= maxSpans
  }

  lemma {:induction false} AssignedGrows(some: seq<Ingested>, more: seq<Ingested>)
    ensures |Assigned(some)| <= |Assigned(some + more)|
    decreases |more|
  {
    if more == [] {
      assert some + more == some;
    } else {
      var n := |more| - 1;
      AssignedGrows(some, more[..n]);
      AssignedAppend(some + more[..n], more[n]);
      assert some + more == some + more[..n] + [more[n]];
    }
  }

  lemma FullStays(env: Env, world: World, schedule: seq<Action>, maxSpans: nat)
    requires Sound(env, world) && Full(world.store, maxSpans)
    ensures Full(Execute(env, world, schedule).store, maxSpans)
  {
    ContinuationEvolves(env, world, schedule);
    var spans, n := Execute(env, world, schedule).store.spans, |world.store.spans|;
    assert spans == world.store.spans + spans[n..];
    AssignedGrows(world.store.spans, spans[n..]);
  }

  // ---------------------------------------------------------------- a pass and its log

  lemma OneIsASchedule(
    env: Env, id: nat, gateway: Ingest.Gateway, pass: Pass, others: seq<Action>, delivery: Ingest.Delivery)
    returns (own: seq<Action>)
    ensures var after := DeliverOne(env, id, gateway, pass, others, delivery);
            && after.log == pass.log + others + own
            && after.world == Execute(env, Execute(env, pass.world, others), own)
  {
    var world := Execute(env, pass.world, others);
    var fate := Ingest.Receive(Ingest.Progress(TablesOf(gateway.target, id, world.store), pass.authorized), gateway, delivery).1;
    own := if fate.Answered? then [Receive(delivery.span, delivery.receivedAt, gateway.maxSpans)] else [];
  }

  lemma {:induction false} PassIsASchedule(
    env: Env, id: nat, gateway: Ingest.Gateway, world: World, others: nat -> seq<Action>, deliveries: seq<Ingest.Delivery>)
    ensures var pass := DeliverAll(env, id, gateway, world, others, deliveries);
            pass.world == Execute(env, world, pass.log)
    decreases |deliveries|
  {
    if deliveries != [] {
      var n := |deliveries| - 1;
      var before := DeliverAll(env, id, gateway, world, others, deliveries[..n]);
      var after := DeliverOne(env, id, gateway, before, others(n), deliveries[n]);
      PassIsASchedule(env, id, gateway, world, others, deliveries[..n]);
      var own := OneIsASchedule(env, id, gateway, before, others(n), deliveries[n]);
      ExecuteConcat(env, world, before.log, others(n));
      ExecuteConcat(env, world, before.log + others(n), own);
    }
  }

  // ---------------------------------------------------------------- refused for want of room

  /** If a pass was not authorized or turned a span away, the run is full. */
  predicate RefusedForRoom(pass: Pass, id: nat, maxSpans: nat) {
    && (id in pass.authorized && !pass.authorized[id] ==> Full(pass.world.store, maxSpans))
    && (true in pass.refused ==> Full(pass.world.store, maxSpans))
  }

  /** What the store of the moment says about one span. */
  lemma RefusalMeansFull(
    id: nat, gateway: Ingest.Gateway, store: Store, authorized: map<nat, bool>, delivery: Ingest.Delivery)
    requires CountIsExact(store) && delivery.runId == Some(id)
    requires id in authorized && !authorized[id] ==> Full(store, gateway.maxSpans)
    ensures var (progress, fate) :=
              Ingest.Receive(Ingest.Progress(TablesOf(gateway.target, id, store), authorized), gateway, delivery);
            && (TurnedAway(store, delivery, fate) ==> Full(store, gateway.maxSpans))
            && (id in progress.authorized && !progress.authorized[id] ==> Full(store, gateway.maxSpans))
  {
    InsertsAgree(gateway.target, id, store, gateway, delivery);
  }

  lemma OneRefusesForRoom(
    env: Env, id: nat, gateway: Ingest.Gateway, pass: Pass, others: seq<Action>, delivery: Ingest.Delivery)
    requires Sound(env, pass.world) && delivery.runId == Some(id)
    requires RefusedForRoom(pass, id, gateway.maxSpans)
    requires CountIsExact(Execute(env, pass.world, others).store)
    ensures RefusedForRoom(DeliverOne(env, id, gateway, pass, others, delivery), id, gateway.maxSpans)
  {
    var world := Execute(env, pass.world, others);
    ExecutionRemembers(env, pass.world, others);
    if Full(pass.world.store, gateway.maxSpans) {
      FullStays(env, pass.world, others, gateway.maxSpans);
    }
    RefusalMeansFull(id, gateway, world.store, pass.authorized, delivery);
    var after := DeliverOne(env, id, gateway, pass, others, delivery);
    if Full(world.store, gateway.maxSpans) {
      var own := OneIsASchedule(env, id, gateway, pass, others, delivery);
      FullStays(env, world, own, gateway.maxSpans);
    }
    assert true in after.refused ==> true in pass.refused || after.refused[|pass.refused|];
  }

  lemma {:induction false} PassRefusesForRoom(
    env: Env, id: nat, gateway: Ingest.Gateway, world: World, others: nat -> seq<Action>, deliveries: seq<Ingest.Delivery>)
    requires Sound(env, world) && OfRun(id, deliveries)
    requires ExactAlong(env, world, DeliverAll(env, id, gateway, world, others, deliveries).log)
    ensures RefusedForRoom(DeliverAll(env, id, gateway, world, others, deliveries), id, gateway.maxSpans)
    decreases |deliveries|
  {
    if deliveries != [] {
      var n := |deliveries| - 1;
      var before := DeliverAll(env, id, gateway, world, others, deliveries[..n]);
      LogSplits(env, id, gateway, world, others, deliveries);
      assert forall delivery | delivery in deliveries[..n] :: delivery in deliveries;
      PassRefusesForRoom(env, id, gateway, world, others, deliveries[..n]);
      PassIsNoted(env, id, gateway, world, others, deliveries[..n]);
      assert deliveries[n] in deliveries;
      OneRefusesForRoom(env, id, gateway, before, others(n), deliveries[n]);
    }
  }

  /** The count is right along the pass up to the last span, and when that span arrives. */
  lemma LogSplits(
    env: Env, id: nat, gateway: Ingest.Gateway, world: World, others: nat -> seq<Action>, deliveries: seq<Ingest.Delivery>)
    requires deliveries != []
    requires ExactAlong(env, world, DeliverAll(env, id, gateway, world, others, deliveries).log)
    ensures var n := |deliveries| - 1;
            var before := DeliverAll(env, id, gateway, world, others, deliveries[..n]);
            && ExactAlong(env, world, before.log)
            && CountIsExact(Execute(env, before.world, others(n)).store)
  {
    var n := |deliveries| - 1;
    var before := DeliverAll(env, id, gateway, world, others, deliveries[..n]);
    var after := DeliverOne(env, id, gateway, before, others(n), deliveries[n]);
    var own := OneIsASchedule(env, id, gateway, before, others(n), deliveries[n]);
    ExactParts(env, world, before.log + others(n), own);
    ExactParts(env, world, before.log, others(n));
    ExactAtEnd(env, world, before.log + others(n));
    ExecuteConcat(env, world, before.log, others(n));
    PassIsASchedule(env, id, gateway, world, others, deliveries[..n]);
  }

  // ---------------------------------------------------------------- what a delivery does

  /** Spans of the run `id` offered by a gateway while others act in between. */
  datatype Visit = Visit(
    id: nat, gateway: Ingest.Gateway, world: World, others: nat -> seq<Action>, deliveries: seq<Ingest.Delivery>)

  function Passed(env: Env, visit: Visit): (pass: Pass)
    ensures |pass.fates| == |pass.refused| == |visit.deliveries|
  {
    DeliverAll(env, visit.id, visit.gateway, visit.world, visit.others, visit.deliveries)
  }

  function Until(visit: Visit, k: nat): Visit
    requires k <= |visit.deliveries|
  {
    visit.(deliveries := visit.deliveries[..k])
  }

  /** The store the span at position `k` comes to. */
  function StoreAt(env: Env, visit: Visit, k: nat): Store
    requires k < |visit.deliveries|
  {
    Execute(env, Passed(env, Until(visit, k)).world, visit.others(k)).store
  }

  /** The gateway asks for the run at its first valid span, and finds room. */
  ghost predicate Opens(env: Env, visit: Visit, k: nat)
    requires k < |visit.deliveries|
  {
    && visit.deliveries[k].valid
    && (forall j | 0 <= j < k :: !visit.deliveries[j].valid)
    && StoreAt(env, visit, k).run.spanCount < visit.gateway.maxSpans
  }

  ghost predicate Admitted(env: Env, visit: Visit, k: nat)
    requires k < |visit.deliveries|
  {
    visit.deliveries[k].valid && exists i: nat :: i <= k && Opens(env, visit, i)
  }

  /** A new span that is late or finds room. */
  predicate TakesIn(store: Store, span: Span, maxSpans: nat) {
    !KeyKnown(store, span) && (AcceptsSpans(store.run.state) ==> store.run.spanCount < maxSpans)
  }

  ghost predicate Stores(env: Env, visit: Visit, k: nat)
    requires k < |visit.deliveries|
  {
    Admitted(env, visit, k) && TakesIn(StoreAt(env, visit, k), visit.deliveries[k].span, visit.gateway.maxSpans)
  }

  /** A span that is stored already. */
  ghost predicate Repeats(env: Env, visit: Visit, k: nat)
    requires k < |visit.deliveries|
  {
    Admitted(env, visit, k) && SpanKnown(StoreAt(env, visit, k), visit.deliveries[k].span)
  }

  /** What one span does, in terms of the store it comes to. */
  lemma OneMeaning(
    env: Env, id: nat, gateway: Ingest.Gateway, pass: Pass, others: seq<Action>, delivery: Ingest.Delivery,
    store: Store, admitted: bool)
    requires delivery.runId == Some(id) && store == Execute(env, pass.world, others).store
    requires admitted <==>
      delivery.valid && if id in pass.authorized then pass.authorized[id] else store.run.spanCount < gateway.maxSpans
    ensures var after := DeliverOne(env, id, gateway, pass, others, delivery);
            var fate := after.fates[|pass.fates|];
            && after.authorized == (if delivery.valid then pass.authorized[id := admitted] else pass.authorized)
            && (after.changed <==> pass.changed || (admitted && TakesIn(store, delivery.span, gateway.maxSpans)))
            && (fate == Ingest.Answered(Ingest.Inserted) ==>
                  admitted && TakesIn(store, delivery.span, gateway.maxSpans))
            && (fate == Ingest.Answered(Ingest.Duplicate) <==> admitted && SpanKnown(store, delivery.span))
  {
    InsertsAgree(gateway.target, id, store, gateway, delivery);
    ExecuteOne(env, Execute(env, pass.world, others), Receive(delivery.span, delivery.receivedAt, gateway.maxSpans));
  }

  lemma UntilLonger(env: Env, visit: Visit, n: nat, k: nat)
    requires k < n <= |visit.deliveries|
    ensures var shorter := Until(visit, n);
            && StoreAt(env, shorter, k) == StoreAt(env, visit, k)
            && shorter.deliveries[k] == visit.deliveries[k]
            && (Opens(env, shorter, k) <==> Opens(env, visit, k))
  {
    assert visit.deliveries[..n][..k] == visit.deliveries[..k];
  }

  lemma AdmittedLonger(env: Env, visit: Visit, n: nat, k: nat)
    requires k < n <= |visit.deliveries|
    ensures Admitted(env, Until(visit, n), k) <==> Admitted(env, visit, k)
    ensures Stores(env, Until(visit, n), k) <==> Stores(env, visit, k)
    ensures Repeats(env, Until(visit, n), k) <==> Repeats(env, visit, k)
  {
    forall i: nat | i <= k ensures Opens(env, Until(visit, n), i) <==> Opens(env, visit, i) {
      UntilLonger(env, visit, n, i);
    }
    UntilLonger(env, visit, n, k);
  }

  ghost predicate SomeOpens(env: Env, visit: Visit) {
    exists k: nat :: k < |visit.deliveries| && Opens(env, visit, k)
  }

  ghost predicate SomeStores(env: Env, visit: Visit) {
    exists k: nat :: k < |visit.deliveries| && Stores(env, visit, k)
  }

  predicate SomeValid(deliveries: seq<Ingest.Delivery>) {
    exists k | 0 <= k < |deliveries| :: deliveries[k].valid
  }

  /** One span longer, only the last span is new. */
  lemma SomeLonger(env: Env, visit: Visit, n: nat)
    requires n == |visit.deliveries| - 1
    ensures SomeOpens(env, visit) <==> SomeOpens(env, Until(visit, n)) || Opens(env, visit, n)
    ensures SomeStores(env, visit) <==> SomeStores(env, Until(visit, n)) || Stores(env, visit, n)
    ensures SomeValid(visit.deliveries) <==> SomeValid(Until(visit, n).deliveries) || visit.deliveries[n].valid
  {
    SomeOpensLonger(env, visit, n);
    SomeStoresLonger(env, visit, n);
    SomeValidLonger(visit.deliveries);
  }

  lemma SomeValidLonger(deliveries: seq<Ingest.Delivery>)
    requires deliveries != []
    ensures var n := |deliveries| - 1;
            SomeValid(deliveries) <==> SomeValid(deliveries[..n]) || deliveries[n].valid
  {
    assert forall k | 0 <= k < |deliveries| - 1 :: deliveries[..|deliveries| - 1][k] == deliveries[k];
  }

  lemma SomeOpensLonger(env: Env, visit: Visit, n: nat)
    requires n == |visit.deliveries| - 1
    ensures SomeOpens(env, visit) <==> SomeOpens(env, Until(visit, n)) || Opens(env, visit, n)
  {
    if SomeOpens(env, Until(visit, n)) {
      var k: nat :| k < n && Opens(env, Until(visit, n), k);
      OpensLonger(env, visit, n, k);
    } else if SomeOpens(env, visit) {
      var k: nat :| k <= n && Opens(env, visit, k);
      if k < n {
        OpensLonger(env, visit, n, k);
      }
    }
  }

  lemma OpensLonger(env: Env, visit: Visit, n: nat, k: nat)
    requires k < n < |visit.deliveries|
    ensures Opens(env, Until(visit, n), k) == Opens(env, visit, k)
    ensures Opens(env, visit, k) ==> SomeOpens(env, Until(visit, n)) && SomeOpens(env, visit)
  {
    UntilLonger(env, visit, n, k);
  }

  lemma SomeStoresLonger(env: Env, visit: Visit, n: nat)
    requires n == |visit.deliveries| - 1
    ensures SomeStores(env, visit) <==> SomeStores(env, Until(visit, n)) || Stores(env, visit, n)
  {
    if SomeStores(env, Until(visit, n)) {
      var k: nat :| k < n && Stores(env, Until(visit, n), k);
      StoresLonger(env, visit, n, k);
    } else if SomeStores(env, visit) {
      var k: nat :| k <= n && Stores(env, visit, k);
      if k < n {
        StoresLonger(env, visit, n, k);
      }
    }
  }

  lemma StoresLonger(env: Env, visit: Visit, n: nat, k: nat)
    requires k < n < |visit.deliveries|
    ensures Stores(env, Until(visit, n), k) == Stores(env, visit, k)
    ensures Stores(env, visit, k) ==> SomeStores(env, Until(visit, n)) && SomeStores(env, visit)
  {
    AdmittedLonger(env, visit, n, k);
  }

  /** The last span is admitted exactly if the pass is authorized by then. */
  lemma LastAdmitted(env: Env, visit: Visit)
    requires visit.deliveries != []
    ensures var n, before := |visit.deliveries| - 1, Until(visit, |visit.deliveries| - 1);
            && (Admitted(env, visit, n) <==> visit.deliveries[n].valid && SomeOpens(env, visit))
            && (Opens(env, visit, n) <==>
                  && visit.deliveries[n].valid && !SomeValid(before.deliveries)
                  && StoreAt(env, visit, n).run.spanCount < visit.gateway.maxSpans)
            && (SomeOpens(env, before) ==> SomeValid(before.deliveries))
  {
    var n, before := |visit.deliveries| - 1, Until(visit, |visit.deliveries| - 1);
    assert forall k | 0 <= k < n :: before.deliveries[k] == visit.deliveries[k];
  }

  /** What a whole delivery does, in terms of the stores its spans come to. */
  ghost predicate IsMeant(env: Env, visit: Visit) {
    var pass := Passed(env, visit);
    && (visit.id in pass.authorized <==> SomeValid(visit.deliveries))
    && (visit.id in pass.authorized ==> (pass.authorized[visit.id] <==> SomeOpens(env, visit)))
    && (pass.changed <==> SomeStores(env, visit))
    && (forall k: nat | k < |visit.deliveries| :: IsMeantAt(env, visit, k))
  }

  /** A span is inserted only if it is stored, and a duplicate exactly if it was stored before. */
  ghost predicate IsMeantAt(env: Env, visit: Visit, k: nat)
    requires k < |visit.deliveries|
  {
    var fate := Passed(env, visit).fates[k];
    && (fate == Ingest.Answered(Ingest.Inserted) ==> Stores(env, visit, k))
    && (fate == Ingest.Answered(Ingest.Duplicate) <==> Repeats(env, visit, k))
  }

  lemma {:induction false} DeliveryMeaning(env: Env, visit: Visit)
    requires OfRun(visit.id, visit.deliveries)
    ensures IsMeant(env, visit)
    decreases |visit.deliveries|
  {
    if visit.deliveries != [] {
      var n, before := |visit.deliveries| - 1, Until(visit, |visit.deliveries| - 1);
      assert forall delivery | delivery in before.deliveries :: delivery in visit.deliveries;
      DeliveryMeaning(env, before);
      assert visit.deliveries[n] in visit.deliveries;
      LastMeaning(env, visit);
      forall k: nat | k < n ensures IsMeantAt(env, visit, k) {
        AdmittedLonger(env, visit, n, k);
        assert IsMeantAt(env, before, k);
        PassGrows(env, visit.id, visit.gateway, Passed(env, before), visit.others(n), visit.deliveries[n]);
        assert Passed(env, visit).fates[..n][k] == Passed(env, visit).fates[k];
      }
    }
  }

  lemma LastMeaning(env: Env, visit: Visit)
    requires visit.deliveries != [] && visit.deliveries[|visit.deliveries| - 1].runId == Some(visit.id)
    requires IsMeant(env, Until(visit, |visit.deliveries| - 1))
    ensures var pass := Passed(env, visit);
            && (visit.id in pass.authorized <==> SomeValid(visit.deliveries))
            && (visit.id in pass.authorized ==> (pass.authorized[visit.id] <==> SomeOpens(env, visit)))
            && (pass.changed <==> SomeStores(env, visit))
            && IsMeantAt(env, visit, |visit.deliveries| - 1)
  {
    var n, before := |visit.deliveries| - 1, Until(visit, |visit.deliveries| - 1);
    SomeLonger(env, visit, n);
    LastAdmitted(env, visit);
    OneMeaning(env, visit.id, visit.gateway, Passed(env, before), visit.others(n), visit.deliveries[n],
               StoreAt(env, visit, n), Admitted(env, visit, n));
  }

  // ---------------------------------------------------------------- when a delivery does anything

  function Items(env: Env, visit: Visit): seq<Ingest.Contribution> {
    Ingest.Contributions(visit.deliveries, Passed(env, visit).fates, visit.id)
  }

  /** The delivery stores a span, or reconciling its batch writes the row. */
  ghost predicate Acts(env: Env, visit: Visit, batch: Batch, settleSeconds: nat) {
    var pass := Passed(env, visit);
    || pass.changed
    || (Items(env, visit) != []
        && Reconciled(pass.world.store.run, batch, settleSeconds) != Ok(pass.world.store.run))
  }

  /** The run is not yet where a span like this calls for. */
  predicate MovesOn(run: Run, delivery: Ingest.Delivery) {
    run.state == Created || (delivery.terminal && run.state == Collecting)
  }

  /** The gateway found room at its first valid span, and this one is new, or is stored and moves the run on. */
  ghost predicate MayAct(env: Env, visit: Visit, k: nat)
    requires k < |visit.deliveries|
  {
    || Stores(env, visit, k)
    || (Repeats(env, visit, k) && MovesOn(Passed(env, visit).world.store.run, visit.deliveries[k]))
  }

  predicate IsDuplicate(fate: Ingest.Fate) {
    fate == Ingest.Answered(Ingest.Duplicate)
  }

  /** The items are those of the duplicates. */
  ghost predicate AreDuplicates(items: seq<Ingest.Contribution>, deliveries: seq<Ingest.Delivery>, fates: seq<Ingest.Fate>)
    requires |fates| == |deliveries|
  {
    && (forall item | item in items ::
          exists k :: 0 <= k < |fates| && IsDuplicate(fates[k]) && item == Ingest.ContributionOf(deliveries[k], fates[k]))
    && (forall k | 0 <= k < |fates| && IsDuplicate(fates[k]) :: Ingest.ContributionOf(deliveries[k], fates[k]) in items)
  }

  /** A batch without inserted spans has an item for each duplicate and no other. */
  lemma DuplicateItems(id: nat, deliveries: seq<Ingest.Delivery>, fates: seq<Ingest.Fate>)
    requires |fates| == |deliveries| && OfRun(id, deliveries)
    requires Ingest.Answered(Ingest.Inserted) !in fates
    ensures AreDuplicates(Ingest.Contributions(deliveries, fates, id), deliveries, fates)
  {
    ItemsComeFrom(deliveries, fates, id);
    forall k | 0 <= k < |fates|
      ensures Ingest.Contributes(deliveries[k], fates[k], id) <==> IsDuplicate(fates[k])
    {
      assert deliveries[k] in deliveries && fates[k] in fates;
    }
  }

  lemma DuplicatesSummary(
    items: seq<Ingest.Contribution>, deliveries: seq<Ingest.Delivery>, fates: seq<Ingest.Fate>, batch: Batch)
    requires |fates| == |deliveries| && AreDuplicates(items, deliveries, fates) && Ingest.Summarizes(batch, items)
    ensures !batch.insertedAny
    ensures batch.terminal <==> exists k | 0 <= k < |fates| :: IsDuplicate(fates[k]) && deliveries[k].terminal
  {
    assert forall j | 0 <= j < |items| :: items[j] in items;
    if k :| 0 <= k < |fates| && IsDuplicate(fates[k]) && deliveries[k].terminal {
      var item := Ingest.ContributionOf(deliveries[k], fates[k]);
      var j :| 0 <= j < |items| && items[j] == item;
    }
  }

  /** So it has one for each stored span. */
  lemma RepeatingItems(env: Env, visit: Visit, batch: Batch)
    requires OfRun(visit.id, visit.deliveries) && IsMeant(env, visit) && !SomeStores(env, visit)
    requires Items(env, visit) != [] ==> Ingest.Summarizes(batch, Items(env, visit))
    ensures Items(env, visit) != [] <==> exists k: nat :: k < |visit.deliveries| && Repeats(env, visit, k)
    ensures Items(env, visit) != [] ==>
              && !batch.insertedAny
              && (batch.terminal <==>
                    exists k: nat :: k < |visit.deliveries| && Repeats(env, visit, k) && visit.deliveries[k].terminal)
  {
    var fates := Passed(env, visit).fates;
    forall k: nat | k < |visit.deliveries|
      ensures IsDuplicate(fates[k]) <==> Repeats(env, visit, k)
      ensures fates[k] != Ingest.Answered(Ingest.Inserted)
    {
      assert IsMeantAt(env, visit, k) && !Stores(env, visit, k);
    }
    DuplicateItems(visit.id, visit.deliveries, fates);
    if Items(env, visit) != [] {
      assert Items(env, visit)[0] in Items(env, visit);
      DuplicatesSummary(Items(env, visit), visit.deliveries, fates, batch);
    }
  }

  /**
   * A delivery acts exactly if the gateway is admitted and some span is new and late or in time with room,
   * or is stored but moves the run on: every branch of admission, insertion and reconciliation at once.
   */
  lemma DeliveryActsIff(env: Env, visit: Visit, batch: Batch, settleSeconds: nat)
    requires Sound(env, visit.world) && OfRun(visit.id, visit.deliveries)
    requires Items(env, visit) != [] ==> Ingest.Summarizes(batch, Items(env, visit))
    ensures Acts(env, visit, batch, settleSeconds) <==>
              exists k: nat :: k < |visit.deliveries| && MayAct(env, visit, k)
  {
    DeliveryMeaning(env, visit);
    if Passed(env, visit).changed {
      var k: nat :| k < |visit.deliveries| && Stores(env, visit, k);
      assert MayAct(env, visit, k);
    } else {
      RepeatingItems(env, visit, batch);
      PassIsNoted(env, visit.id, visit.gateway, visit.world, visit.others, visit.deliveries);
      RepeatingActsIff(env, visit, Passed(env, visit).world.store, batch, settleSeconds);
    }
  }

  lemma RepeatingActsIff(env: Env, visit: Visit, store: Store, batch: Batch, settleSeconds: nat)
    requires store == Passed(env, visit).world.store && StoreInvariant(env, store)
    requires !Passed(env, visit).changed && !SomeStores(env, visit)
    requires Items(env, visit) != [] <==> exists k: nat :: k < |visit.deliveries| && Repeats(env, visit, k)
    requires Items(env, visit) != [] ==>
              && !batch.insertedAny
              && (batch.terminal <==>
                    exists k: nat :: k < |visit.deliveries| && Repeats(env, visit, k) && visit.deliveries[k].terminal)
    ensures Acts(env, visit, batch, settleSeconds) <==>
              exists k: nat :: k < |visit.deliveries| && MayAct(env, visit, k)
  {
    CurrentInHistory(env, store);
    assert SoundRun(store, store.run);
    forall k: nat | k < |visit.deliveries|
      ensures MayAct(env, visit, k) <==> Repeats(env, visit, k) && MovesOn(store.run, visit.deliveries[k])
    {
      assert !Stores(env, visit, k);
    }
    if Items(env, visit) != [] {
      NothingNewChangesNothingIff(store.run, batch, settleSeconds);
      if Acts(env, visit, batch, settleSeconds) {
        var k: nat :| k < |visit.deliveries| && Repeats(env, visit, k)
                      && (batch.terminal ==> visit.deliveries[k].terminal);
        assert MayAct(env, visit, k);
      }
    }
  }

  // ---------------------------------------------------------------- a delivery nobody interrupts

  ghost predicate Uninterrupted(visit: Visit) {
    forall k: nat :: visit.others(k) == []
  }

  lemma OneQuiet(
    env: Env, id: nat, gateway: Ingest.Gateway, pass: Pass, others: seq<Action>, delivery: Ingest.Delivery)
    requires others == []
    ensures var after := DeliverOne(env, id, gateway, pass, others, delivery);
            && (pass.changed ==> after.changed)
            && (!after.changed ==> after.world.store == pass.world.store)
  {
  }

  /** While nothing is stored every span comes to the store the delivery began with. */
  lemma {:induction false} QuietUntil(env: Env, visit: Visit, k: nat)
    requires Uninterrupted(visit) && k <= |visit.deliveries| && !Passed(env, Until(visit, k)).changed
    ensures Passed(env, Until(visit, k)).world.store == visit.world.store
    ensures k < |visit.deliveries| ==> StoreAt(env, visit, k) == visit.world.store
  {
    if k > 0 {
      var shorter := Until(visit, k);
      assert shorter.deliveries[..k - 1] == visit.deliveries[..k - 1];
      var before := Passed(env, Until(visit, k - 1));
      OneQuiet(env, visit.id, visit.gateway, before, visit.others(k - 1), visit.deliveries[k - 1]);
      QuietUntil(env, visit, k - 1);
    }
  }

  /** What the spans before `k` did, in terms of the whole delivery. */
  lemma ChangedUntil(env: Env, visit: Visit, k: nat)
    requires OfRun(visit.id, visit.deliveries) && k <= |visit.deliveries|
    ensures Passed(env, Until(visit, k)).changed <==> exists j: nat :: j < k && Stores(env, visit, j)
  {
    assert forall delivery | delivery in visit.deliveries[..k] :: delivery in visit.deliveries;
    DeliveryMeaning(env, Until(visit, k));
    if SomeStores(env, Until(visit, k)) {
      var j: nat :| j < k && Stores(env, Until(visit, k), j);
      AdmittedLonger(env, visit, k, j);
    }
    if j: nat :| j < k && Stores(env, visit, j) {
      AdmittedLonger(env, visit, k, j);
      assert Stores(env, Until(visit, k), j);
    }
  }

  /** The first valid span comes to the store the delivery began with. */
  lemma OpensIff(env: Env, visit: Visit, i: nat)
    requires Uninterrupted(visit) && OfRun(visit.id, visit.deliveries) && i < |visit.deliveries|
    requires visit.deliveries[i].valid && forall j | 0 <= j < i :: !visit.deliveries[j].valid
    ensures Opens(env, visit, i) <==> visit.world.store.run.spanCount < visit.gateway.maxSpans
  {
    ChangedUntil(env, visit, i);
    QuietUntil(env, visit, i);
  }

  lemma {:induction false} FirstValid(deliveries: seq<Ingest.Delivery>, k: nat) returns (i: nat)
    requires k < |deliveries| && deliveries[k].valid
    ensures i <= k && deliveries[i].valid && forall j | 0 <= j < i :: !deliveries[j].valid
  {
    if j: nat :| j < k && deliveries[j].valid {
      i := FirstValid(deliveries, j);
    } else {
      i := k;
    }
  }

  /** The span was admitted on the count the delivery began with. */
  lemma AdmittedIff(env: Env, visit: Visit, k: nat)
    requires Uninterrupted(visit) && OfRun(visit.id, visit.deliveries) && k < |visit.deliveries|
    ensures Admitted(env, visit, k) <==>
              visit.deliveries[k].valid && visit.world.store.run.spanCount < visit.gateway.maxSpans
  {
    if visit.deliveries[k].valid {
      var i := FirstValid(visit.deliveries, k);
      OpensIff(env, visit, i);
    }
  }

  /** The span is new, or it is known and moves the run on. */
  predicate HasEffect(store: Store, delivery: Ingest.Delivery) {
    && delivery.valid
    && (!KeyKnown(store, delivery.span) || (SpanKnown(store, delivery.span) && MovesOn(store.run, delivery)))
  }

  /**
   * Nobody acting in between, one can tell before the delivery whether it will act: exactly if there is room
   * for at least one span, and a span is new (late ones included), or is known and moves the run on.
   */
  lemma UninterruptedDeliveryActsIff(env: Env, visit: Visit, batch: Batch, settleSeconds: nat)
    requires Sound(env, visit.world) && OfRun(visit.id, visit.deliveries) && Uninterrupted(visit)
    requires Items(env, visit) != [] ==> Ingest.Summarizes(batch, Items(env, visit))
    ensures Acts(env, visit, batch, settleSeconds) <==>
              && visit.world.store.run.spanCount < visit.gateway.maxSpans
              && exists delivery | delivery in visit.deliveries :: HasEffect(visit.world.store, delivery)
  {
    var store := visit.world.store;
    DeliveryActsIff(env, visit, batch, settleSeconds);
    if Acts(env, visit, batch, settleSeconds) {
      var k: nat :| k < |visit.deliveries| && MayAct(env, visit, k);
      EffectIsForeseen(env, visit, k);
    } else if delivery :| delivery in visit.deliveries && HasEffect(store, delivery) {
      var k: nat :| k < |visit.deliveries| && visit.deliveries[k] == delivery;
      if store.run.spanCount < visit.gateway.maxSpans {
        ForeseenIsEffect(env, visit, k);
      }
    }
  }

  lemma EffectIsForeseen(env: Env, visit: Visit, k: nat)
    requires Sound(env, visit.world) && OfRun(visit.id, visit.deliveries) && Uninterrupted(visit)
    requires k < |visit.deliveries| && MayAct(env, visit, k)
    ensures visit.world.store.run.spanCount < visit.gateway.maxSpans
    ensures exists delivery | delivery in visit.deliveries :: HasEffect(visit.world.store, delivery)
  {
    AdmittedIff(env, visit, k);
    if j: nat :| j < |visit.deliveries| && Stores(env, visit, j) {
      StoringIsForeseen(env, visit, j);
    } else {
      RepeatingIsForeseen(env, visit, k);
    }
  }

  lemma StoringIsForeseen(env: Env, visit: Visit, k: nat)
    requires Sound(env, visit.world) && OfRun(visit.id, visit.deliveries)
    requires k < |visit.deliveries| && Stores(env, visit, k)
    ensures HasEffect(visit.world.store, visit.deliveries[k])
  {
    ComesLater(env, visit, k);
  }

  lemma RepeatingIsForeseen(env: Env, visit: Visit, k: nat)
    requires OfRun(visit.id, visit.deliveries) && Uninterrupted(visit)
    requires k < |visit.deliveries| && MayAct(env, visit, k)
    requires !SomeStores(env, visit)
    ensures HasEffect(visit.world.store, visit.deliveries[k])
  {
    ChangedUntil(env, visit, |visit.deliveries|);
    assert Until(visit, |visit.deliveries|) == visit;
    QuietUntil(env, visit, |visit.deliveries|);
    ChangedUntil(env, visit, k);
    QuietUntil(env, visit, k);
  }

  lemma ForeseenIsEffect(env: Env, visit: Visit, k: nat)
    requires OfRun(visit.id, visit.deliveries) && Uninterrupted(visit)
    requires k < |visit.deliveries| && HasEffect(visit.world.store, visit.deliveries[k])
    requires visit.world.store.run.spanCount < visit.gateway.maxSpans
    ensures exists j: nat :: j < |visit.deliveries| && MayAct(env, visit, j)
  {
    AdmittedIff(env, visit, k);
    if j: nat :| j < |visit.deliveries| && Stores(env, visit, j) {
      assert MayAct(env, visit, j);
    } else {
      ChangedUntil(env, visit, |visit.deliveries|);
      assert Until(visit, |visit.deliveries|) == visit;
      QuietUntil(env, visit, |visit.deliveries|);
      ChangedUntil(env, visit, k);
      QuietUntil(env, visit, k);
      assert MayAct(env, visit, k);
    }
  }

  /** The store a span comes to remembers the one the delivery began with, and the last one remembers it. */
  lemma ComesLater(env: Env, visit: Visit, k: nat)
    requires Sound(env, visit.world) && OfRun(visit.id, visit.deliveries) && k < |visit.deliveries|
    ensures Remembers(visit.world.store, StoreAt(env, visit, k))
  {
    assert forall delivery | delivery in visit.deliveries[..k] :: delivery in visit.deliveries;
    PassIsNoted(env, visit.id, visit.gateway, visit.world, visit.others, visit.deliveries[..k]);
    ExecutionRemembers(env, Passed(env, Until(visit, k)).world, visit.others(k));
  }

  // ---------------------------------------------------------------- when a repeated delivery does anything

  function Again(
    env: Env, start: World, id: nat, gateway: Ingest.Gateway, deliveries: seq<Ingest.Delivery>, story: Story): Visit
  {
    Visit(id, gateway, Later(env, start, id, gateway, deliveries, story), story.othersAgain, deliveries)
  }

  /**
   * A batch was delivered, its run reconciled, anything happened, and the batch is delivered again: it acts
   * exactly if the gateway is admitted and a span that was turned away for want of room the first time is now
   * new and late or in time with room, or has been stored by others and moves the run on.
   */
  lemma RedeliveryActsIff(
    env: Env, start: World, id: nat, gateway: Ingest.Gateway, deliveries: seq<Ingest.Delivery>, story: Story,
    repeated: Batch, settleSeconds: nat)
    requires Initial(start) && OfRun(id, deliveries)
    requires IsReconciled(env, start, id, gateway, deliveries, story)
    requires var visit := Again(env, start, id, gateway, deliveries, story);
             Items(env, visit) != [] ==> Ingest.Summarizes(repeated, Items(env, visit))
    ensures var visit := Again(env, start, id, gateway, deliveries, story);
            Acts(env, visit, repeated, settleSeconds) <==>
              exists k: nat ::
                && k < |deliveries| && FirstPass(env, start, id, gateway, deliveries, story).refused[k]
                && MayAct(env, visit, k)
  {
    StoryUntilLater(env, start, id, gateway, deliveries, story);
    DeliveryActsIff(env, Again(env, start, id, gateway, deliveries, story), repeated, settleSeconds);
    OnlyRefusedMayAct(env, start, id, gateway, deliveries, story);
  }

  /**
   * Nobody acting during the second delivery, one can tell before it: there is room for at least one span, and
   * a span that was turned away the first time is still unknown, or is known and moves the run on.
   */
  lemma UninterruptedRedeliveryActsIff(
    env: Env, start: World, id: nat, gateway: Ingest.Gateway, deliveries: seq<Ingest.Delivery>, story: Story,
    repeated: Batch, settleSeconds: nat)
    requires Initial(start) && OfRun(id, deliveries)
    requires IsReconciled(env, start, id, gateway, deliveries, story)
    requires var visit := Again(env, start, id, gateway, deliveries, story);
             && Uninterrupted(visit)
             && (Items(env, visit) != [] ==> Ingest.Summarizes(repeated, Items(env, visit)))
    ensures var visit := Again(env, start, id, gateway, deliveries, story);
            Acts(env, visit, repeated, settleSeconds) <==>
              && visit.world.store.run.spanCount < gateway.maxSpans
              && exists k: nat ::
                   && k < |deliveries| && FirstPass(env, start, id, gateway, deliveries, story).refused[k]
                   && HasEffect(visit.world.store, deliveries[k])
  {
    var visit, pass := Again(env, start, id, gateway, deliveries, story), FirstPass(env, start, id, gateway, deliveries, story);
    StoryUntilLater(env, start, id, gateway, deliveries, story);
    UninterruptedDeliveryActsIff(env, visit, repeated, settleSeconds);
    forall k: nat | k < |deliveries| && HasEffect(visit.world.store, deliveries[k]) ensures pass.refused[k] {
      if !pass.refused[k] {
        assert deliveries[k] in deliveries;
        NotedWantsNothing(visit.world.store, deliveries, pass.fates, id, k, story.batch);
      }
    }
    if delivery :| delivery in deliveries && HasEffect(visit.world.store, delivery) {
      var k: nat :| k < |deliveries| && deliveries[k] == delivery;
      assert pass.refused[k];
    }
    if k: nat :| k < |deliveries| && pass.refused[k] && HasEffect(visit.world.store, deliveries[k]) {
      assert deliveries[k] in deliveries;
    }
  }

  lemma NotedWantsNothing(
    store: Store, deliveries: seq<Ingest.Delivery>, fates: seq<Ingest.Fate>, id: nat, k: nat, batch: Batch)
    requires k < |deliveries| == |fates| && deliveries[k].runId == Some(id)
    requires Noted(store, deliveries[k], fates[k])
    requires var items := Ingest.Contributions(deliveries, fates, id);
             items != [] ==> Ingest.Summarizes(batch, items) && Absorbed(store.run, batch)
    ensures !HasEffect(store, deliveries[k])
  {
    assert SpanKnown(store, deliveries[k].span) ==> KeyKnown(store, deliveries[k].span);
    if Ingest.Contributes(deliveries[k], fates[k], id) {
      AbsorbedMovesNothing(deliveries, fates, id, k, store.run, batch);
    }
  }

  /** In particular it never acts when no span was turned away for want of room. */
  lemma UnrefusedRedeliveryIsHarmless(
    env: Env, start: World, id: nat, gateway: Ingest.Gateway, deliveries: seq<Ingest.Delivery>, story: Story,
    repeated: Batch, settleSeconds: nat)
    requires Initial(start) && OfRun(id, deliveries)
    requires IsReconciled(env, start, id, gateway, deliveries, story)
    requires true !in FirstPass(env, start, id, gateway, deliveries, story).refused
    requires var visit := Again(env, start, id, gateway, deliveries, story);
             Items(env, visit) != [] ==> Ingest.Summarizes(repeated, Items(env, visit))
    ensures !Acts(env, Again(env, start, id, gateway, deliveries, story), repeated, settleSeconds)
  {
    RedeliveryActsIff(env, start, id, gateway, deliveries, story, repeated, settleSeconds);
    var refused := FirstPass(env, start, id, gateway, deliveries, story).refused;
    assert forall k: nat | k < |refused| :: refused[k] in refused;
  }

  lemma OnlyRefusedMayAct(
    env: Env, start: World, id: nat, gateway: Ingest.Gateway, deliveries: seq<Ingest.Delivery>, story: Story)
    requires Initial(start) && OfRun(id, deliveries)
    requires IsReconciled(env, start, id, gateway, deliveries, story)
    ensures forall k: nat | k < |deliveries| && MayAct(env, Again(env, start, id, gateway, deliveries, story), k) ::
              FirstPass(env, start, id, gateway, deliveries, story).refused[k]
  {
    var visit := Again(env, start, id, gateway, deliveries, story);
    StoryUntilLater(env, start, id, gateway, deliveries, story);
    var pass := FirstPass(env, start, id, gateway, deliveries, story);
    forall k: nat | k < |deliveries| && MayAct(env, visit, k) ensures pass.refused[k] {
      if !pass.refused[k] {
        ComesLater(env, visit, k);
        PassIsNoted(env, id, gateway, visit.world, visit.others, deliveries);
        if Ingest.Contributes(deliveries[k], pass.fates[k], id) {
          AbsorbedMovesNothing(deliveries, pass.fates, id, k, visit.world.store.run, story.batch);
        }
        NotedHasNoEffect(env, visit, k, pass.fates);
      }
    }
  }

  /** A span that was noted, and reconciled if it contributed, has nothing left to do. */
  lemma NotedHasNoEffect(env: Env, visit: Visit, k: nat, fates: seq<Ingest.Fate>)
    requires k < |visit.deliveries| == |fates|
    requires Noted(visit.world.store, visit.deliveries[k], fates[k])
    requires Remembers(visit.world.store, StoreAt(env, visit, k))
    requires Remembers(visit.world.store, Passed(env, visit).world.store)
    requires Ingest.Contributes(visit.deliveries[k], fates[k], visit.id) ==>
               !MovesOn(visit.world.store.run, visit.deliveries[k])
    requires visit.deliveries[k].runId == Some(visit.id)
    ensures !MayAct(env, visit, k)
  {
    var delivery := visit.deliveries[k];
    assert SpanKnown(visit.world.store, delivery.span) ==> KeyKnown(visit.world.store, delivery.span);
  }

  /** A span whose batch was reconciled does not move the run on. */
  lemma AbsorbedMovesNothing(
    deliveries: seq<Ingest.Delivery>, fates: seq<Ingest.Fate>, id: nat, k: nat, run: Run, batch: Batch)
    requires k < |deliveries| == |fates| && Ingest.Contributes(deliveries[k], fates[k], id)
    requires var items := Ingest.Contributions(deliveries, fates, id);
             items != [] ==> Ingest.Summarizes(batch, items) && Absorbed(run, batch)
    ensures !MovesOn(run, deliveries[k])
  {
    var items, item := Ingest.Contributions(deliveries, fates, id), Ingest.ContributionOf(deliveries[k], fates[k]);
    ItemsComeFrom(deliveries, fates, id);
    assert item in items;
    var j :| 0 <= j < |items| && items[j] == item;
    assert deliveries[k].terminal ==> batch.terminal;
  }

  // ---------------------------------------------------------------- harmless while no span is lost

  /** What happens between the end of the first delivery and the beginning of the second. */
  function Between(story: Story): seq<Action> {
    story.mid + [Step(story.pid, story.input)] + story.rest
  }

  /** Everything that happens, from the created run to the end of the second delivery. */
  function Script(
    env: Env, start: World, id: nat, gateway: Ingest.Gateway, deliveries: seq<Ingest.Delivery>, story: Story)
    : seq<Action>
  {
    story.early + FirstPass(env, start, id, gateway, deliveries, story).log
    + Between(story) + SecondPass(env, start, id, gateway, deliveries, story).log
  }

  lemma LaterIsASchedule(
    env: Env, start: World, id: nat, gateway: Ingest.Gateway, deliveries: seq<Ingest.Delivery>, story: Story)
    ensures Later(env, start, id, gateway, deliveries, story)
         == Execute(env, FirstPass(env, start, id, gateway, deliveries, story).world, Between(story))
  {
    var world := FirstPass(env, start, id, gateway, deliveries, story).world;
    ExecuteConcat(env, world, story.mid, [Step(story.pid, story.input)]);
    ExecuteOne(env, Execute(env, world, story.mid), Step(story.pid, story.input));
    ExecuteConcat(env, world, story.mid + [Step(story.pid, story.input)], story.rest);
  }

  /** The script is a schedule, and it is exact in each of its parts if no step of it loses a span. */
  lemma ScriptIsExact(
    env: Env, start: World, id: nat, gateway: Ingest.Gateway, deliveries: seq<Ingest.Delivery>, story: Story)
    requires Initial(start)
    requires CountIsNeverLost(env, start, Script(env, start, id, gateway, deliveries, story))
    ensures ExactAlong(env, Execute(env, start, story.early), FirstPass(env, start, id, gateway, deliveries, story).log)
    ensures ExactAlong(env, Later(env, start, id, gateway, deliveries, story),
                       SecondPass(env, start, id, gateway, deliveries, story).log)
  {
    var first, second := FirstPass(env, start, id, gateway, deliveries, story).log,
                         SecondPass(env, start, id, gateway, deliveries, story).log;
    var script := Script(env, start, id, gateway, deliveries, story);
    forall k | 0 <= k <= |script| ensures CountIsExact(RunStamps.At(env, start, script, k).store) {
      CountStaysExact(env, start, script, k);
    }
    ExactParts(env, start, story.early + first + Between(story), second);
    ExactParts(env, start, story.early + first, Between(story));
    ExactParts(env, start, story.early, first);
    ExecuteConcat(env, start, story.early + first, Between(story));
    ExecuteConcat(env, start, story.early, first);
    PassIsASchedule(env, id, gateway, Execute(env, start, story.early), story.others, deliveries);
    LaterIsASchedule(env, start, id, gateway, deliveries, story);
  }

  /** The count is right whenever a span comes to the store. */
  lemma {:induction false} ExactWhenItComes(env: Env, visit: Visit, n: nat, k: nat)
    requires k < n <= |visit.deliveries|
    requires ExactAlong(env, visit.world, Passed(env, Until(visit, n)).log)
    ensures CountIsExact(StoreAt(env, visit, k))
  {
    ExactUntil(env, visit, n);
    if k < n - 1 {
      ExactWhenItComes(env, visit, n - 1, k);
    }
  }

  lemma ExactUntil(env: Env, visit: Visit, n: nat)
    requires 0 < n <= |visit.deliveries| && ExactAlong(env, visit.world, Passed(env, Until(visit, n)).log)
    ensures ExactAlong(env, visit.world, Passed(env, Until(visit, n - 1)).log)
    ensures CountIsExact(StoreAt(env, visit, n - 1))
  {
    assert Until(visit, n).deliveries[..n - 1] == visit.deliveries[..n - 1];
    LogSplits(env, visit.id, visit.gateway, visit.world, visit.others, Until(visit, n).deliveries);
  }

  /** A gateway is not admitted to a run that was full before. */
  lemma FullIsClosed(env: Env, visit: Visit, k: nat)
    requires Sound(env, visit.world) && OfRun(visit.id, visit.deliveries) && k < |visit.deliveries|
    requires Full(visit.world.store, visit.gateway.maxSpans)
    requires ExactAlong(env, visit.world, Passed(env, visit).log)
    ensures !Admitted(env, visit, k)
  {
    assert Until(visit, |visit.deliveries|) == visit;
    forall i: nat | i <= k ensures !Opens(env, visit, i) {
      ExactWhenItComes(env, visit, |visit.deliveries|, i);
      var before := Passed(env, Until(visit, i));
      PassIsASchedule(env, visit.id, visit.gateway, visit.world, visit.others, visit.deliveries[..i]);
      ExecuteConcat(env, visit.world, before.log, visit.others(i));
      FullStays(env, visit.world, before.log + visit.others(i), visit.gateway.maxSpans);
    }
  }

  /**
   * Delivering a batch again is harmless: after ingestion, reconciliation and anything else, the same spans
   * are not stored again, the batch they make brings nothing new, and reconciling it finds nothing to write;
   * whatever the batch, spans refused as late, in conflict or for want of room included. All this takes is
   * that no step ever loses a counted span.
   */
  lemma RedeliveryIsHarmless(
    env: Env, start: World, id: nat, gateway: Ingest.Gateway, deliveries: seq<Ingest.Delivery>, story: Story,
    repeated: Batch, settleSeconds: nat)
    requires Initial(start) && OfRun(id, deliveries)
    requires IsReconciled(env, start, id, gateway, deliveries, story)
    requires CountIsNeverLost(env, start, Script(env, start, id, gateway, deliveries, story))
    requires var visit := Again(env, start, id, gateway, deliveries, story);
             Items(env, visit) != [] ==> Ingest.Summarizes(repeated, Items(env, visit))
    ensures var visit := Again(env, start, id, gateway, deliveries, story);
            && !Acts(env, visit, repeated, settleSeconds)
            && (Items(env, visit) != [] ==> !repeated.insertedAny)
  {
    var visit := Again(env, start, id, gateway, deliveries, story);
    RedeliveryActsIff(env, start, id, gateway, deliveries, story, repeated, settleSeconds);
    NoneMayAct(env, start, id, gateway, deliveries, story);
    DeliveryMeaning(env, visit);
    RepeatingItems(env, visit, repeated);
  }

  lemma NoneMayAct(
    env: Env, start: World, id: nat, gateway: Ingest.Gateway, deliveries: seq<Ingest.Delivery>, story: Story)
    requires Initial(start) && OfRun(id, deliveries)
    requires IsReconciled(env, start, id, gateway, deliveries, story)
    requires CountIsNeverLost(env, start, Script(env, start, id, gateway, deliveries, story))
    ensures forall k: nat | k < |deliveries| :: !MayAct(env, Again(env, start, id, gateway, deliveries, story), k)
  {
    var visit := Again(env, start, id, gateway, deliveries, story);
    var pass := FirstPass(env, start, id, gateway, deliveries, story);
    OnlyRefusedMayAct(env, start, id, gateway, deliveries, story);
    forall k: nat | k < |deliveries| && pass.refused[k] ensures !MayAct(env, visit, k) {
      assert pass.refused[k] in pass.refused;
      RefusedStaysFull(env, start, id, gateway, deliveries, story);
      FullIsClosed(env, visit, k);
    }
  }

  /** If a span was turned away, the run is full when the second delivery begins. */
  lemma RefusedStaysFull(
    env: Env, start: World, id: nat, gateway: Ingest.Gateway, deliveries: seq<Ingest.Delivery>, story: Story)
    requires Initial(start) && OfRun(id, deliveries)
    requires true in FirstPass(env, start, id, gateway, deliveries, story).refused
    requires CountIsNeverLost(env, start, Script(env, start, id, gateway, deliveries, story))
    ensures var visit := Again(env, start, id, gateway, deliveries, story);
            && Sound(env, visit.world) && Full(visit.world.store, gateway.maxSpans)
            && ExactAlong(env, visit.world, Passed(env, visit).log)
  {
    var world := Execute(env, start, story.early);
    InitialIsSound(env, start);
    ExecutionRemembers(env, start, story.early);
    ScriptIsExact(env, start, id, gateway, deliveries, story);
    PassRefusesForRoom(env, id, gateway, world, story.others, deliveries);
    PassIsNoted(env, id, gateway, world, story.others, deliveries);
    LaterIsASchedule(env, start, id, gateway, deliveries, story);
    var pass := FirstPass(env, start, id, gateway, deliveries, story);
    FullStays(env, pass.world, Between(story), gateway.maxSpans);
    ExecutionRemembers(env, pass.world, Between(story));
  }

  /** In particular when no write puts a stamp on the row under which another process holds it. */
  lemma UnsharedRedeliveryIsHarmless(
    env: Env, start: World, id: nat, gateway: Ingest.Gateway, deliveries: seq<Ingest.Delivery>, story: Story,
    repeated: Batch, settleSeconds: nat)
    requires Initial(start) && OfRun(id, deliveries)
    requires IsReconciled(env, start, id, gateway, deliveries, story)
    requires UnsharedSchedule(env, start, Script(env, start, id, gateway, deliveries, story))
    requires var visit := Again(env, start, id, gateway, deliveries, story);
             Items(env, visit) != [] ==> Ingest.Summarizes(repeated, Items(env, visit))
    ensures !Acts(env, Again(env, start, id, gateway, deliveries, story), repeated, settleSeconds)
  {
    UnsharedLosesNoCount(env, start, Script(env, start, id, gateway, deliveries, story));
    RedeliveryIsHarmless(env, start, id, gateway, deliveries, story, repeated, settleSeconds);
  }
}
