/**
 * Schedules of a created run on which a repeated batch is not harmless: a stale swap loses counted spans, so
 * a span that was turned away for want of room is taken later, or moves the run on once others stored it.
 */
module RedeliveryWitness {
  import opened Wrappers
  import opened Evidence
  import opened RunDomain
  import opened RunStore
  import opened RunProtocol
  import opened RunInvariant
  import opened RunSafety
  import opened RunStamps
  import opened Redelivery
  import opened RedeliveryLaws
  import Ingest

  /** The row of a run that was created as `created` and has counted spans received at `at`. */
  function Row(created: Run, state: RunState, spanCount: nat, at: Time): Run {
    created.(state := state, spanCount := spanCount, lastSeenAt := Some(at), updatedAt := at)
  }

  predicate Shows(store: Store, run: Run, spans: seq<Span>) {
    store.run == run && store.spans == seq(|spans|, i requires 0 <= i < |spans| => Ingested(spans[i], false))
  }

  predicate DistinctKeys(spans: seq<Span>) {
    forall i, j | 0 <= i < j < |spans| :: !SameKey(spans[i], spans[j])
  }

  /** A new span is counted while there is room. */
  lemma Counts(store: Store, created: Run, state: RunState, n: nat, at: Time, spans: seq<Span>, span: Span, maxSpans: nat)
    requires Shows(store, store.run, spans) && forall other | other in spans :: !SameKey(other, span)
    requires store.run == (if n == 0 then created else Row(created, state, n, at)) && store.run.spanCount == n < maxSpans
    requires store.run.state == state && AcceptsSpans(state)
    ensures var (after, outcome) := InsertSpan(store, span, at, maxSpans);
            outcome == SpanOutcome.Inserted && Shows(after, Row(created, state, n + 1, at), spans + [span])
  {
    var longer := spans + [span];
    assert forall i | 0 <= i < |spans| :: longer[i] == spans[i] && spans[i] in spans;
    var after := InsertSpan(store, span, at, maxSpans).0;
    assert after.spans == seq(|longer|, i requires 0 <= i < |longer| => Ingested(longer[i], false));
  }

  // ---------------------------------------------------------------- the scene

  /**
   * A gateway with room for three spans delivers `a` and the terminal `b`. Between the two another gateway loads
   * the row in order to reconcile it, and spans `x` and `y` are counted under the stamp it loaded.
   */
  datatype Scene = Scene(id: nat, target: string, at: Time, a: Span, b: Span, x: Span, y: Span, settleSeconds: nat)

  function Offered(scene: Scene): seq<Ingest.Delivery> {
    [Ingest.Delivery(true, Some(scene.id), false, None, scene.at, scene.a),
     Ingest.Delivery(true, Some(scene.id), true, None, scene.at, scene.b)]
  }

  const MAX_SPANS := 3

  function TheGateway(scene: Scene): Ingest.Gateway {
    Ingest.Gateway(scene.target, MAX_SPANS)
  }

  function Nothing(scene: Scene): Input {
    Input(scene.at, None, 0)
  }

  function Theirs(scene: Scene): Batch {
    Batch(scene.at, false, false, None)
  }

  function Ours(scene: Scene): Batch {
    Batch(scene.at, true, false, None)
  }

  function Meanwhile(scene: Scene): seq<Action> {
    [Spawn(9, ReconcileRead(Theirs(scene), scene.settleSeconds, [])), Step(9, Nothing(scene)),
     Receive(scene.x, scene.at, MAX_SPANS), Receive(scene.y, scene.at, MAX_SPANS)]
  }

  /** The other gateway swaps its stale row; then ours reconciles. */
  function Afterwards(scene: Scene): seq<Action> {
    [Step(9, Nothing(scene)), Spawn(5, ReconcileRead(Ours(scene), scene.settleSeconds, [])), Step(5, Nothing(scene))]
  }

  function StoryOf(scene: Scene, rest: seq<Action>): Story {
    Story([], BeforeTheSecond(scene), Afterwards(scene), 5, Ours(scene), Nothing(scene), rest, k => [])
  }

  function BeforeTheSecond(scene: Scene): nat -> seq<Action> {
    k => if k == 1 then Meanwhile(scene) else []
  }

  ghost predicate Fits(start: World, scene: Scene) {
    Initial(start) && DistinctKeys([scene.a, scene.x, scene.y, scene.b])
  }

  lemma KeysDiffer(scene: Scene)
    requires DistinctKeys([scene.a, scene.x, scene.y, scene.b])
    ensures !SameKey(scene.a, scene.x) && !SameKey(scene.a, scene.y) && !SameKey(scene.a, scene.b)
    ensures !SameKey(scene.x, scene.y) && !SameKey(scene.x, scene.b) && !SameKey(scene.y, scene.b)
  {
    var all := [scene.a, scene.x, scene.y, scene.b];
    assert !SameKey(all[0], all[1]) && !SameKey(all[0], all[2]) && !SameKey(all[0], all[3]);
    assert !SameKey(all[1], all[2]) && !SameKey(all[1], all[3]) && !SameKey(all[2], all[3]);
  }

  /** The span `a` is counted. */
  lemma FirstSpan(env: Env, start: World, scene: Scene)
    requires Fits(start, scene)
    ensures var created, pass := start.store.run,
                                 DeliverOne(env, scene.id, TheGateway(scene), Begun(start), [], Offered(scene)[0]);
            && pass.world.procs == map[] && Shows(pass.world.store, Row(created, Created, 1, scene.at), [scene.a])
            && pass.authorized == map[scene.id := true] && pass.refused == [false]
            && pass.fates == [Ingest.Answered(Ingest.Inserted)]
  {
    assert scene.a == [scene.a, scene.x, scene.y, scene.b][0];
    Counts(start.store, start.store.run, Created, 0, scene.at, [], scene.a, MAX_SPANS);
    assert [] + [scene.a] == [scene.a];
    var gateway, delivery := TheGateway(scene), Offered(scene)[0];
    OneMeaning(env, scene.id, gateway, Begun(start), [], delivery, start.store, true);
    InsertsAgree(gateway.target, scene.id, start.store, gateway, delivery);
    ExecuteOne(env, start, Receive(delivery.span, delivery.receivedAt, gateway.maxSpans));
  }

  /** The other gateway holds the row with one span when it shows three. */
  lemma TwoMore(env: Env, world: World, created: Run, scene: Scene)
    requires DistinctKeys([scene.a, scene.x, scene.y, scene.b])
    requires world.procs == map[] && Shows(world.store, Row(created, Created, 1, scene.at), [scene.a])
    ensures var after := Execute(env, world, Meanwhile(scene));
            && Shows(after.store, Row(created, Created, 3, scene.at), [scene.a, scene.x, scene.y])
            && after.procs == map[9 := ReconcileWrite(Theirs(scene), scene.settleSeconds, [], |world.store.history|,
                                                      Row(created, Created, 1, scene.at))]
  {
    var actions := Meanwhile(scene);
    KeysDiffer(scene);
    var spawned := Apply(env, world, actions[0]);
    var loaded := Apply(env, spawned, actions[1]);
    assert loaded.store == world.store;
    Counts(loaded.store, created, Created, 1, scene.at, [scene.a], scene.x, MAX_SPANS);
    var third := Apply(env, loaded, actions[2]);
    assert [scene.a] + [scene.x] == [scene.a, scene.x];
    Counts(third.store, created, Created, 2, scene.at, [scene.a, scene.x], scene.y, MAX_SPANS);
    assert [scene.a, scene.x] + [scene.y] == [scene.a, scene.x, scene.y];
    ExecuteFour(env, world, actions[0], actions[1], actions[2], actions[3]);
  }

  lemma ExecuteThree(env: Env, world: World, a: Action, b: Action, c: Action)
    ensures Execute(env, world, [a, b, c]) == Apply(env, Apply(env, Apply(env, world, a), b), c)
  {
    assert [a, b, c][..2] == [a, b] && [a, b][..1] == [a];
    ExecuteOne(env, world, a);
  }

  lemma ExecuteFour(env: Env, world: World, a: Action, b: Action, c: Action, d: Action)
    ensures Execute(env, world, [a, b, c, d]) == Apply(env, Apply(env, Apply(env, Apply(env, world, a), b), c), d)
  {
    ExecuteThree(env, world, a, b, c);
    assert [a, b, c, d][..3] == [a, b, c];
  }

  /** The span `b` finds the run full. */
  lemma SecondSpan(env: Env, start: World, scene: Scene, rest: seq<Action>)
    requires Fits(start, scene)
    ensures var created, pass := start.store.run,
                                 FirstPass(env, start, scene.id, TheGateway(scene), Offered(scene), StoryOf(scene, rest));
            && pass.refused == [false, true]
            && pass.fates == [Ingest.Answered(Ingest.Inserted), Ingest.Answered(Ingest.Conflict)]
            && Shows(pass.world.store, Row(created, Created, 3, scene.at), [scene.a, scene.x, scene.y])
            && exists readAt: nat :: pass.world.procs ==
                 map[9 := ReconcileWrite(Theirs(scene), scene.settleSeconds, [], readAt, Row(created, Created, 1, scene.at))]
  {
    var gateway, deliveries := TheGateway(scene), Offered(scene);
    KeysDiffer(scene);
    FirstSpan(env, start, scene);
    var before := DeliverOne(env, scene.id, gateway, Begun(start), [], deliveries[0]);
    TwoMore(env, before.world, start.store.run, scene);
    var world := Execute(env, before.world, Meanwhile(scene));
    Refuses(env, scene.id, gateway, before, Meanwhile(scene), deliveries[1]);
    FirstOfTwo(env, scene.id, gateway, start, BeforeTheSecond(scene), deliveries);
  }

  lemma FirstOfTwo(
    env: Env, id: nat, gateway: Ingest.Gateway, world: World, others: nat -> seq<Action>, deliveries: seq<Ingest.Delivery>)
    requires |deliveries| == 2
    ensures DeliverAll(env, id, gateway, world, others, deliveries)
         == DeliverOne(env, id, gateway, DeliverOne(env, id, gateway, Begun(world), others(0), deliveries[0]), others(1), deliveries[1])
  {
    LastIsDelivered(env, id, gateway, world, others, deliveries[..1]);
    LastIsDelivered(env, id, gateway, world, others, deliveries);
  }

  lemma LastIsDelivered(
    env: Env, id: nat, gateway: Ingest.Gateway, world: World, others: nat -> seq<Action>, deliveries: seq<Ingest.Delivery>)
    requires deliveries != []
    ensures var n := |deliveries| - 1;
            DeliverAll(env, id, gateway, world, others, deliveries)
              == DeliverOne(env, id, gateway, DeliverAll(env, id, gateway, world, others, deliveries[..n]), others(n), deliveries[n])
    ensures |deliveries| == 1 ==> deliveries[..|deliveries| - 1] == [] && DeliverAll(env, id, gateway, world, others, []) == Begun(world)
  {
  }

  /** An admitted span of a new key is refused by a full run. */
  lemma Refuses(env: Env, id: nat, gateway: Ingest.Gateway, pass: Pass, others: seq<Action>, delivery: Ingest.Delivery)
    requires delivery.valid && delivery.runId == Some(id) && pass.authorized == map[id := true]
    requires var store := Execute(env, pass.world, others).store;
             && !KeyKnown(store, delivery.span) && AcceptsSpans(store.run.state)
             && store.run.spanCount >= gateway.maxSpans
    ensures var after := DeliverOne(env, id, gateway, pass, others, delivery);
            && after.world == Execute(env, pass.world, others)
            && after.refused == pass.refused + [true]
            && after.fates == pass.fates + [Ingest.Answered(Ingest.Conflict)]
  {
    var world := Execute(env, pass.world, others);
    InsertsAgree(gateway.target, id, world.store, gateway, delivery);
    ExecuteOne(env, world, Receive(delivery.span, delivery.receivedAt, gateway.maxSpans));
  }

  /** The stale row is swapped in, and our reconciliation finds nothing to write. */
  lemma StaleSwap(env: Env, world: World, created: Run, scene: Scene, readAt: nat)
    requires created.state == Created
    requires Shows(world.store, Row(created, Created, 3, scene.at), [scene.a, scene.x, scene.y])
    requires world.procs ==
      map[9 := ReconcileWrite(Theirs(scene), scene.settleSeconds, [], readAt, Row(created, Created, 1, scene.at))]
    ensures var swapped := Execute(env, world, Afterwards(scene));
            && Shows(swapped.store, Row(created, Collecting, 1, scene.at), [scene.a, scene.x, scene.y])
            && 5 in swapped.procs && swapped.procs[5].ReconcileWrite? && swapped.procs[5].batch == Ours(scene)
            && Apply(env, swapped, Step(5, Nothing(scene))) == World(swapped.store, map[])
  {
    var actions := Afterwards(scene);
    var row := Row(created, Collecting, 1, scene.at);
    var swapped := Apply(env, world, actions[0]);
    assert Reconciled(Row(created, Created, 1, scene.at), Theirs(scene), scene.settleSeconds) == Ok(row);
    assert swapped.store.run == row && swapped.procs == map[];
    var spawned := Apply(env, swapped, actions[1]);
    ExecuteThree(env, world, actions[0], actions[1], actions[2]);
    assert Reconciled(row, Ours(scene), scene.settleSeconds) == Ok(row);
  }

  function Repeated(env: Env, start: World, scene: Scene, rest: seq<Action>): Visit {
    Again(env, start, scene.id, TheGateway(scene), Offered(scene), StoryOf(scene, rest))
  }

  /** The first delivery is reconciled; then the run has lost two of its three spans. */
  lemma TwoSpansAreLost(env: Env, start: World, scene: Scene, rest: seq<Action>)
    requires Fits(start, scene)
    ensures IsReconciled(env, start, scene.id, TheGateway(scene), Offered(scene), StoryOf(scene, rest))
    ensures exists world: World ::
              && Shows(world.store, Row(start.store.run, Collecting, 1, scene.at), [scene.a, scene.x, scene.y])
              && Repeated(env, start, scene, rest).world == Execute(env, world, rest)
  {
    SecondSpan(env, start, scene, rest);
    var pass := FirstPass(env, start, scene.id, TheGateway(scene), Offered(scene), StoryOf(scene, rest));
    var readAt: nat :| pass.world.procs ==
      map[9 := ReconcileWrite(Theirs(scene), scene.settleSeconds, [], readAt, Row(start.store.run, Created, 1, scene.at))];
    StaleSwap(env, pass.world, start.store.run, scene, readAt);
    OneItem(scene);
    var swapped := Execute(env, pass.world, Afterwards(scene));
    var world := Apply(env, swapped, Step(5, Nothing(scene)));
    assert Repeated(env, start, scene, rest).world == Execute(env, world, rest);
  }

  /** The first delivery tells its run of the span `a` alone. */
  lemma OneItem(scene: Scene)
    ensures Ingest.Summarizes(Ours(scene), Ingest.Contributions(
      Offered(scene), [Ingest.Answered(Ingest.Inserted), Ingest.Answered(Ingest.Conflict)], scene.id))
  {
    var deliveries, fates := Offered(scene), [Ingest.Answered(Ingest.Inserted), Ingest.Answered(Ingest.Conflict)];
    assert deliveries[..1][..0] == [] && fates[..1][..0] == [];
    var item := Ingest.ContributionOf(deliveries[0], fates[0]);
    assert Ingest.Contributions(deliveries[..1], fates[..1], scene.id) == [item];
    assert Ingest.Contributions(deliveries, fates, scene.id) == [item];
    assert [item][0].receivedAt == scene.at;
  }

  // ---------------------------------------------------------------- what the second delivery does

  /** A known span stores nothing, so the span after it comes to the store the delivery began with. */
  lemma SecondComesToTheSame(env: Env, visit: Visit)
    requires |visit.deliveries| == 2 && OfRun(visit.id, visit.deliveries) && Uninterrupted(visit)
    requires Sound(env, visit.world) && SpanKnown(visit.world.store, visit.deliveries[0].span)
    ensures StoreAt(env, visit, 1) == visit.world.store && !Stores(env, visit, 0)
  {
    ComesLater(env, visit, 0);
    KnownStoresNothing(env, visit, 0);
    ChangedUntil(env, visit, 1);
    QuietUntil(env, visit, 1);
  }

  lemma KnownStoresNothing(env: Env, visit: Visit, k: nat)
    requires k < |visit.deliveries| && SpanKnown(visit.world.store, visit.deliveries[k].span)
    requires Remembers(visit.world.store, StoreAt(env, visit, k))
    ensures !Stores(env, visit, k)
  {
    assert KeyKnown(visit.world.store, visit.deliveries[k].span);
  }

  /** What the second span may do it does. */
  lemma SecondSpanActs(env: Env, visit: Visit)
    requires |visit.deliveries| == 2 && OfRun(visit.id, visit.deliveries) && Uninterrupted(visit)
    requires visit.world.store.run.spanCount < visit.gateway.maxSpans && visit.deliveries[1].valid
    requires Sound(env, visit.world) && SpanKnown(visit.world.store, visit.deliveries[0].span)
    ensures StoreAt(env, visit, 1) == visit.world.store && Admitted(env, visit, 1)
    ensures Passed(env, visit).changed <==> !KeyKnown(visit.world.store, visit.deliveries[1].span)
  {
    SecondComesToTheSame(env, visit);
    AdmittedIff(env, visit, 1);
    ChangedUntil(env, visit, 2);
    assert Until(visit, 2) == visit;
    assert Stores(env, visit, 1) <==> TakesIn(visit.world.store, visit.deliveries[1].span, visit.gateway.maxSpans);
  }

  /** A known terminal span moves a collecting run on. */
  lemma SecondSpanMovesOn(env: Env, visit: Visit)
    requires |visit.deliveries| == 2 && OfRun(visit.id, visit.deliveries) && Uninterrupted(visit)
    requires visit.world.store.run.spanCount < visit.gateway.maxSpans
    requires visit.deliveries[1].valid && visit.deliveries[1].terminal && visit.world.store.run.state == Collecting
    requires Sound(env, visit.world) && SpanKnown(visit.world.store, visit.deliveries[0].span)
    requires SpanKnown(visit.world.store, visit.deliveries[1].span)
    ensures !Passed(env, visit).changed && MayAct(env, visit, 1)
  {
    assert KeyKnown(visit.world.store, visit.deliveries[1].span);
    SecondSpanActs(env, visit);
    assert Until(visit, 2) == visit;
    QuietUntil(env, visit, 2);
  }

  /** The span that was turned away is taken. */
  lemma RefusedSpanIsTakenLater(env: Env, start: World, scene: Scene)
    requires Fits(start, scene)
    ensures var (gateway, deliveries, story) := (TheGateway(scene), Offered(scene), StoryOf(scene, []));
            && IsReconciled(env, start, scene.id, gateway, deliveries, story)
            && FirstPass(env, start, scene.id, gateway, deliveries, story).refused == [false, true]
            && SecondPass(env, start, scene.id, gateway, deliveries, story).changed
            && !CountIsNeverLost(env, start, Script(env, start, scene.id, gateway, deliveries, story))
  {
    SecondSpan(env, start, scene, []);
    TwoSpansAreLost(env, start, scene, []);
    StoryUntilLater(env, start, scene.id, TheGateway(scene), Offered(scene), StoryOf(scene, []));
    var world: World :| Shows(world.store, Row(start.store.run, Collecting, 1, scene.at), [scene.a, scene.x, scene.y])
                        && Repeated(env, start, scene, []).world == Execute(env, world, []);
    RefusedSpanIsNew(env, Repeated(env, start, scene, []), start.store.run, scene);
    if CountIsNeverLost(env, start, Script(env, start, scene.id, TheGateway(scene), Offered(scene), StoryOf(scene, []))) {
      NoneMayAct(env, start, scene.id, TheGateway(scene), Offered(scene), StoryOf(scene, []));
    }
  }

  lemma RefusedSpanIsNew(env: Env, visit: Visit, created: Run, scene: Scene)
    requires DistinctKeys([scene.a, scene.x, scene.y, scene.b])
    requires Shows(visit.world.store, Row(created, Collecting, 1, scene.at), [scene.a, scene.x, scene.y])
    requires visit.deliveries == Offered(scene) && visit.id == scene.id && visit.gateway == TheGateway(scene)
    requires Sound(env, visit.world) && Uninterrupted(visit)
    ensures Passed(env, visit).changed && MayAct(env, visit, 1)
  {
    KeysDiffer(scene);
    assert visit.world.store.spans[0].span == scene.a;
    SecondSpanActs(env, visit);
  }

  /** If others store it first, the repeated batch has nothing new and moves the run on all the same. */
  lemma RefusedSpanMovesTheRunLater(env: Env, start: World, scene: Scene, repeated: Batch, settleSeconds: nat)
    requires Fits(start, scene)
    requires var visit := Repeated(env, start, scene, [Receive(scene.b, scene.at, MAX_SPANS)]);
             Items(env, visit) != [] ==> Ingest.Summarizes(repeated, Items(env, visit))
    ensures var rest := [Receive(scene.b, scene.at, MAX_SPANS)];
            var (gateway, deliveries, story) := (TheGateway(scene), Offered(scene), StoryOf(scene, rest));
            var again := SecondPass(env, start, scene.id, gateway, deliveries, story);
            && IsReconciled(env, start, scene.id, gateway, deliveries, story)
            && !again.changed
            && Reconciled(again.world.store.run, repeated, settleSeconds) != Ok(again.world.store.run)
  {
    var rest := [Receive(scene.b, scene.at, MAX_SPANS)];
    var visit := Repeated(env, start, scene, rest);
    TwoSpansAreLost(env, start, scene, rest);
    var world: World :| Shows(world.store, Row(start.store.run, Collecting, 1, scene.at), [scene.a, scene.x, scene.y])
                        && visit.world == Execute(env, world, rest);
    StoryUntilLater(env, start, scene.id, TheGateway(scene), Offered(scene), StoryOf(scene, rest));
    OthersStoreIt(env, world, start.store.run, scene);
    SecondSpanMovesOn(env, visit);
    DeliveryActsIff(env, visit, repeated, settleSeconds);
  }

  lemma OthersStoreIt(env: Env, world: World, created: Run, scene: Scene)
    requires DistinctKeys([scene.a, scene.x, scene.y, scene.b])
    requires Shows(world.store, Row(created, Collecting, 1, scene.at), [scene.a, scene.x, scene.y])
    ensures var store := Execute(env, world, [Receive(scene.b, scene.at, MAX_SPANS)]).store;
            && store.run == Row(created, Collecting, 2, scene.at)
            && SpanKnown(store, scene.a) && SpanKnown(store, scene.b)
  {
    KeysDiffer(scene);
    var action := Receive(scene.b, scene.at, MAX_SPANS);
    ExecuteOne(env, world, action);
    Counts(world.store, created, Collecting, 1, scene.at, [scene.a, scene.x, scene.y], scene.b, MAX_SPANS);
    var store := Apply(env, world, action).store;
    assert store.spans[0].span == scene.a && store.spans[3].span == scene.b;
    assert store.spans[0] in store.spans && store.spans[3] in store.spans;
  }
}
