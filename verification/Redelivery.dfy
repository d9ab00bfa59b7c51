/**
 * A gateway's batch from the first span to reconciliation and back: the spans of a run are ingested while
 * others act, the run is reconciled with what the batch tells it, anything may happen, and the same spans
 * arrive again.
 */
module Redelivery {
  import opened Wrappers
  import opened Evidence
  import opened RunDomain
  import opened RunStore
  import opened RunProtocol
  import opened RunInvariant
  import opened RunSafety
  import opened RunSession
  import Ingest

  // ---------------------------------------------------------------- one store, seen from both sides

  function RowsOf(target: string, id: nat, spans: seq<Ingested>): (rows: seq<Ingest.SpanRow>)
    ensures |rows| == |spans|
  {
    seq(|spans|, i requires 0 <= i < |spans| => Ingest.SpanRow(target, Some(id), spans[i].span, spans[i].late))
  }

  /** The span table and run entry that the store of the run `id` stands for. */
  function TablesOf(target: string, id: nat, store: Store): Ingest.Tables {
    Ingest.Tables(RowsOf(target, id, store.spans), map[id := Ingest.RunEntry(target, store.run.state, store.run.spanCount)])
  }

  predicate SameOutcome(stored: SpanOutcome, answered: Ingest.Outcome) {
    match stored
    case Inserted => answered == Ingest.Inserted
    case Duplicate => answered == Ingest.Duplicate
    case Conflict => answered == Ingest.Conflict
    case LateAfterFinalize => answered == Ingest.LateAfterFinalize
  }

  predicate SpanKnown(store: Store, span: Span) {
    exists ingested | ingested in store.spans :: ingested.span == span
  }

  predicate KeyKnown(store: Store, span: Span) {
    exists ingested | ingested in store.spans :: ingested.span.traceId == span.traceId && ingested.span.spanId == span.spanId
  }

  lemma RowsMirror(target: string, id: nat, store: Store, gateway: Ingest.Gateway, delivery: Ingest.Delivery)
    requires gateway.target == target && delivery.runId == Some(id)
    ensures var rows := RowsOf(target, id, store.spans);
            && ((exists row | row in rows :: Ingest.SameKey(row, gateway, delivery.span)) <==> KeyKnown(store, delivery.span))
            && ((exists row | row in rows :: Ingest.SameKey(row, gateway, delivery.span) && row.span == delivery.span)
                  <==> SpanKnown(store, delivery.span))
            && !(exists row | row in rows :: Ingest.OwnedByOther(row, gateway, delivery))
  {
    var rows := RowsOf(target, id, store.spans);
    assert forall i | 0 <= i < |rows| :: rows[i] in rows && store.spans[i] in store.spans;
    if ingested :| ingested in store.spans && ingested.span == delivery.span {
      var i :| 0 <= i < |store.spans| && store.spans[i] == ingested;
      assert Ingest.SameKey(rows[i], gateway, delivery.span);
    }
    if ingested :| ingested in store.spans && ingested.span.traceId == delivery.span.traceId
                   && ingested.span.spanId == delivery.span.spanId {
      var i :| 0 <= i < |store.spans| && store.spans[i] == ingested;
      assert Ingest.SameKey(rows[i], gateway, delivery.span);
    }
  }

  /** The table's insert and the run store's insert are the same operation. */
  lemma InsertsAgree(target: string, id: nat, store: Store, gateway: Ingest.Gateway, delivery: Ingest.Delivery)
    requires gateway.target == target && delivery.runId == Some(id)
    ensures var (tables, answered) := Ingest.Insert(TablesOf(target, id, store), gateway, delivery);
            var (store', stored) := InsertSpan(store, delivery.span, delivery.receivedAt, gateway.maxSpans);
            tables == TablesOf(target, id, store') && SameOutcome(stored, answered)
  {
    RowsMirror(target, id, store, gateway, delivery);
    var (store', stored) := InsertSpan(store, delivery.span, delivery.receivedAt, gateway.maxSpans);
    if stored == Inserted || stored == LateAfterFinalize {
      var row := Ingest.SpanRow(target, Some(id), delivery.span, stored == LateAfterFinalize);
      assert RowsOf(target, id, store'.spans) == RowsOf(target, id, store.spans) + [row];
    }
  }

  // ---------------------------------------------------------------- keys are stored once

  predicate SameKey(a: Span, b: Span) {
    a.traceId == b.traceId && a.spanId == b.spanId
  }

  ghost predicate KeysOnce(spans: seq<Ingested>) {
    forall i, j | 0 <= i < j < |spans| :: !SameKey(spans[i].span, spans[j].span)
  }

  lemma AdvanceKeepsSpans(env: Env, store: Store, proc: Proc, input: Input)
    ensures Advance(env, store, proc, input).0.spans == store.spans
  {
  }

  lemma InsertKeepsKeysOnce(store: Store, span: Span, receivedAt: Time, maxSpans: nat)
    requires KeysOnce(store.spans)
    ensures KeysOnce(InsertSpan(store, span, receivedAt, maxSpans).0.spans)
  {
    assert forall i | 0 <= i < |store.spans| :: store.spans[i] in store.spans;
  }

  lemma ApplyKeepsKeysOnce(env: Env, world: World, action: Action)
    requires KeysOnce(world.store.spans)
    ensures KeysOnce(Apply(env, world, action).store.spans)
  {
    match action
    case Receive(span, receivedAt, maxSpans) => InsertKeepsKeysOnce(world.store, span, receivedAt, maxSpans);
    case Step(pid, input) =>
      if pid in world.procs {
        AdvanceKeepsSpans(env, world.store, world.procs[pid], input);
      }
    case _ =>
  }

  lemma {:induction false} ExecuteKeepsKeysOnce(env: Env, world: World, schedule: seq<Action>)
    requires KeysOnce(world.store.spans)
    ensures KeysOnce(Execute(env, world, schedule).store.spans)
    decreases |schedule|
  {
    if schedule != [] {
      ExecuteKeepsKeysOnce(env, world, schedule[..|schedule| - 1]);
      ApplyKeepsKeysOnce(env, Execute(env, world, schedule[..|schedule| - 1]), schedule[|schedule| - 1]);
    }
  }

  /** The facts this module needs of a world, all of them kept by every schedule. */
  ghost predicate Sound(env: Env, world: World) {
    WorldInvariant(env, world) && KeysOnce(world.store.spans)
  }

  lemma InitialIsSound(env: Env, world: World)
    requires Initial(world)
    ensures Sound(env, world)
  {
    InitialKeeps(env, world);
  }

  /** What a store knows about a span it goes on knowing, and never in another way. */
  ghost predicate Remembers(before: Store, after: Store) {
    && Rank(before.run.state) <= Rank(after.run.state)
    && (forall span | KeyKnown(before, span) ::
          KeyKnown(after, span) && (SpanKnown(after, span) <==> SpanKnown(before, span)))
  }

  lemma EvolutionRemembers(env: Env, before: Store, after: Store)
    requires StoreInvariant(env, before) && StoreInvariant(env, after)
    requires Evolves(before, after) && KeysOnce(after.spans)
    ensures Remembers(before, after)
  {
    CurrentInHistory(env, before);
    HistoryKept(before, after, before.run);
    CurrentInHistory(env, after);
    var n := |before.spans|;
    assert forall i | 0 <= i < n :: after.spans[i] == after.spans[..n][i];
    forall span | KeyKnown(before, span)
      ensures KeyKnown(after, span) && (SpanKnown(after, span) <==> SpanKnown(before, span))
    {
      var i :| 0 <= i < n && SameKey(before.spans[i].span, span);
      assert after.spans[i] in after.spans;
      if ingested :| ingested in after.spans && ingested.span == span {
        var j :| 0 <= j < |after.spans| && after.spans[j] == ingested;
        assert SameKey(after.spans[i].span, after.spans[j].span) && SameKey(after.spans[j].span, after.spans[i].span);
        assert i == j;
        assert before.spans[i] in before.spans;
      }
      if ingested :| ingested in before.spans && ingested.span == span {
        var j :| 0 <= j < n && before.spans[j] == ingested;
        assert after.spans[j] in after.spans;
      }
    }
  }

  lemma ExecutionRemembers(env: Env, world: World, schedule: seq<Action>)
    requires Sound(env, world)
    ensures Sound(env, Execute(env, world, schedule))
    ensures Remembers(world.store, Execute(env, world, schedule).store)
  {
    ContinuationEvolves(env, world, schedule);
    ExecuteKeepsKeysOnce(env, world, schedule);
    EvolutionRemembers(env, world.store, Execute(env, world, schedule).store);
  }

  // ---------------------------------------------------------------- one pass of a batch over a run

  /**
   * A pass so far; `refused` marks the spans turned away for want of room, `changed` tells whether any was
   * stored, `log` lists the actions that happened.
   */
  datatype Pass = OnePass(
    world: World, authorized: map<nat, bool>, fates: seq<Ingest.Fate>, refused: seq<bool>, changed: bool,
    log: seq<Action>)

  function Begun(world: World): Pass {
    OnePass(world, map[], [], [], false, [])
  }

  /** The run is full: the gateway is not authorized, or the store refuses a span it does not know. */
  predicate TurnedAway(store: Store, delivery: Ingest.Delivery, fate: Ingest.Fate) {
    || (fate == Ingest.Rejected && delivery.valid)
    || (fate == Ingest.Answered(Ingest.Conflict) && !KeyKnown(store, delivery.span))
  }

  lemma ExecuteOne(env: Env, world: World, action: Action)
    ensures Execute(env, world, [action]) == Apply(env, world, action)
  {
    assert [action][..0] == [];
  }

  /** After others acted, one span is checked, authorized and offered to the store. */
  function DeliverOne(
    env: Env, id: nat, gateway: Ingest.Gateway, pass: Pass, others: seq<Action>, delivery: Ingest.Delivery): Pass
  {
    var world := Execute(env, pass.world, others);
    var progress := Ingest.Progress(TablesOf(gateway.target, id, world.store), pass.authorized);
    var (progress', fate) := Ingest.Receive(progress, gateway, delivery);
    var own :=
      if fate.Answered? then [Receive(delivery.span, delivery.receivedAt, gateway.maxSpans)] else [];
    var world' := Execute(env, world, own);
    OnePass(world', progress'.authorized, pass.fates + [fate],
            pass.refused + [TurnedAway(world.store, delivery, fate)],
            pass.changed || world'.store != world.store,
            pass.log + others + own)
  }

  /** All spans in order; `others(k)` happens before the span at position `k`. */
  function DeliverAll(
    env: Env, id: nat, gateway: Ingest.Gateway, world: World, others: nat -> seq<Action>, deliveries: seq<Ingest.Delivery>)
    : (pass: Pass)
    ensures |pass.fates| == |pass.refused| == |deliveries|
    decreases |deliveries|
  {
    if deliveries == [] then Begun(world)
    else
      var n := |deliveries| - 1;
      DeliverOne(env, id, gateway, DeliverAll(env, id, gateway, world, others, deliveries[..n]), others(n), deliveries[n])
  }

  predicate OfRun(id: nat, deliveries: seq<Ingest.Delivery>) {
    forall delivery | delivery in deliveries :: delivery.runId == Some(id)
  }

  /** What the batch module says about the span is what happens to the run's store. */
  lemma DeliveryIsIngestion(
    env: Env, id: nat, gateway: Ingest.Gateway, pass: Pass, others: seq<Action>, delivery: Ingest.Delivery)
    requires delivery.runId == Some(id)
    ensures var world := Execute(env, pass.world, others);
            var progress := Ingest.Progress(TablesOf(gateway.target, id, world.store), pass.authorized);
            Ingest.Receive(progress, gateway, delivery).0.tables
              == TablesOf(gateway.target, id, DeliverOne(env, id, gateway, pass, others, delivery).world.store)
  {
    var world := Execute(env, pass.world, others);
    InsertsAgree(gateway.target, id, world.store, gateway, delivery);
    ExecuteOne(env, world, Receive(delivery.span, delivery.receivedAt, gateway.maxSpans));
  }

  // ---------------------------------------------------------------- what a pass leaves behind

  /** What the store knows about a span once it was delivered, unless it was turned away. */
  predicate Noted(store: Store, delivery: Ingest.Delivery, fate: Ingest.Fate) {
    match fate
    case Rejected => !delivery.valid
    case Answered(outcome) =>
      match outcome
      case Inserted => SpanKnown(store, delivery.span)
      case Duplicate => SpanKnown(store, delivery.span)
      case LateAfterFinalize => SpanKnown(store, delivery.span) && Rank(store.run.state) >= 3
      case Conflict => KeyKnown(store, delivery.span) && !SpanKnown(store, delivery.span)
      case _ => false
  }

  lemma NotedIsRemembered(before: Store, after: Store, delivery: Ingest.Delivery, fate: Ingest.Fate)
    requires Remembers(before, after) && Noted(before, delivery, fate)
    ensures Noted(after, delivery, fate)
  {
    assert SpanKnown(before, delivery.span) ==> KeyKnown(before, delivery.span);
  }

  lemma DeliveredIsNoted(
    env: Env, id: nat, gateway: Ingest.Gateway, pass: Pass, others: seq<Action>, delivery: Ingest.Delivery)
    requires Sound(env, pass.world) && delivery.runId == Some(id)
    ensures var after := DeliverOne(env, id, gateway, pass, others, delivery);
            && Sound(env, after.world) && Remembers(pass.world.store, after.world.store)
            && (after.refused[|pass.refused|]
                || Noted(after.world.store, delivery, after.fates[|pass.fates|]))
  {
    var world := Execute(env, pass.world, others);
    ExecutionRemembers(env, pass.world, others);
    InsertsAgree(gateway.target, id, world.store, gateway, delivery);
    var action := Receive(delivery.span, delivery.receivedAt, gateway.maxSpans);
    ExecutionRemembers(env, world, [action]);
    ExecutionRemembers(env, world, []);
    ExecuteOne(env, world, action);
    InsertIsNoted(world.store, delivery.span, delivery.receivedAt, gateway.maxSpans);
  }

  lemma InsertIsNoted(store: Store, span: Span, receivedAt: Time, maxSpans: nat)
    ensures var (store', outcome) := InsertSpan(store, span, receivedAt, maxSpans);
            match outcome
            case Inserted => SpanKnown(store', span)
            case Duplicate => SpanKnown(store', span)
            case LateAfterFinalize => SpanKnown(store', span) && Rank(store'.run.state) >= 3
            case Conflict => store' == store && !SpanKnown(store, span)
  {
    var (store', outcome) := InsertSpan(store, span, receivedAt, maxSpans);
    if outcome == Inserted || outcome == LateAfterFinalize {
      assert store'.spans[|store.spans|] in store'.spans;
    }
  }

  /** Every span so far is noted, or was turned away for want of room. */
  ghost predicate PassNoted(env: Env, store: Store, pass: Pass, deliveries: seq<Ingest.Delivery>) {
    && |pass.fates| == |pass.refused| == |deliveries|
    && Sound(env, pass.world) && Remembers(store, pass.world.store)
    && forall k | 0 <= k < |deliveries| :: pass.refused[k] || Noted(pass.world.store, deliveries[k], pass.fates[k])
  }

  /** One span more; `after` is the pass with it, whatever it was. */
  lemma NotesAreCarried(
    env: Env, store: Store, before: Pass, after: Pass, deliveries: seq<Ingest.Delivery>, delivery: Ingest.Delivery)
    requires PassNoted(env, store, before, deliveries)
    requires |after.fates| == |after.refused| == |deliveries| + 1
    requires after.fates[..|deliveries|] == before.fates && after.refused[..|deliveries|] == before.refused
    requires Sound(env, after.world) && Remembers(before.world.store, after.world.store)
    requires after.refused[|deliveries|] || Noted(after.world.store, delivery, after.fates[|deliveries|])
    ensures PassNoted(env, store, after, deliveries + [delivery])
  {
    var n, longer := |deliveries|, deliveries + [delivery];
    forall k | 0 <= k < |longer| ensures after.refused[k] || Noted(after.world.store, longer[k], after.fates[k]) {
      if k < n {
        assert after.refused[k] == after.refused[..n][k] && after.fates[k] == after.fates[..n][k];
        if !before.refused[k] {
          NotedIsRemembered(before.world.store, after.world.store, deliveries[k], before.fates[k]);
        }
      }
    }
  }

  lemma PassGrows(
    env: Env, id: nat, gateway: Ingest.Gateway, pass: Pass, others: seq<Action>, delivery: Ingest.Delivery)
    ensures var after := DeliverOne(env, id, gateway, pass, others, delivery);
            && after.fates[..|pass.fates|] == pass.fates && |after.fates| == |pass.fates| + 1
            && after.refused[..|pass.refused|] == pass.refused && |after.refused| == |pass.refused| + 1
  {
  }

  /** After a pass every span is noted, or was turned away for want of room. */
  lemma {:induction false} PassIsNoted(
    env: Env, id: nat, gateway: Ingest.Gateway, world: World, others: nat -> seq<Action>, deliveries: seq<Ingest.Delivery>)
    requires Sound(env, world) && OfRun(id, deliveries)
    ensures PassNoted(env, world.store, DeliverAll(env, id, gateway, world, others, deliveries), deliveries)
    decreases |deliveries|
  {
    if deliveries != [] {
      assert forall delivery | delivery in deliveries[..|deliveries| - 1] :: delivery in deliveries;
      PassIsNoted(env, id, gateway, world, others, deliveries[..|deliveries| - 1]);
      LastIsNoted(env, id, gateway, world, others, deliveries);
    }
  }

  lemma LastIsNoted(
    env: Env, id: nat, gateway: Ingest.Gateway, world: World, others: nat -> seq<Action>, deliveries: seq<Ingest.Delivery>)
    requires deliveries != [] && OfRun(id, deliveries)
    requires var shorter := deliveries[..|deliveries| - 1];
             PassNoted(env, world.store, DeliverAll(env, id, gateway, world, others, shorter), shorter)
    ensures PassNoted(env, world.store, DeliverAll(env, id, gateway, world, others, deliveries), deliveries)
  {
    var n := |deliveries| - 1;
    var before := DeliverAll(env, id, gateway, world, others, deliveries[..n]);
    assert deliveries[n] in deliveries && deliveries == deliveries[..n] + [deliveries[n]];
    NextIsNoted(env, id, gateway, world.store, before, others(n), deliveries[..n], deliveries[n]);
  }

  lemma NextIsNoted(
    env: Env, id: nat, gateway: Ingest.Gateway, store: Store, before: Pass, others: seq<Action>,
    deliveries: seq<Ingest.Delivery>, delivery: Ingest.Delivery)
    requires PassNoted(env, store, before, deliveries) && delivery.runId == Some(id)
    ensures PassNoted(env, store, DeliverOne(env, id, gateway, before, others, delivery), deliveries + [delivery])
  {
    DeliveredIsNoted(env, id, gateway, before, others, delivery);
    PassGrows(env, id, gateway, before, others, delivery);
    NotesAreCarried(env, store, before, DeliverOne(env, id, gateway, before, others, delivery), deliveries, delivery);
  }

  // ---------------------------------------------------------------- the batch

  /** Where the items of a run come from. */
  lemma {:induction false} ItemsComeFrom(deliveries: seq<Ingest.Delivery>, fates: seq<Ingest.Fate>, id: nat)
    requires |deliveries| == |fates|
    ensures forall item | item in Ingest.Contributions(deliveries, fates, id) ::
              exists k :: 0 <= k < |deliveries| && Ingest.Contributes(deliveries[k], fates[k], id)
                && item == Ingest.ContributionOf(deliveries[k], fates[k])
    ensures forall k | 0 <= k < |deliveries| && Ingest.Contributes(deliveries[k], fates[k], id) ::
              Ingest.ContributionOf(deliveries[k], fates[k]) in Ingest.Contributions(deliveries, fates, id)
    decreases |deliveries|
  {
    if deliveries != [] {
      ItemsComeFrom(deliveries[..|deliveries| - 1], fates[..|deliveries| - 1], id);
    }
  }

  // ---------------------------------------------------------------- there and back

  /**
   * From one delivery of a batch to the next: the spans are ingested, a process reconciles the run with what
   * they told it (if they told it anything), and anything else may happen before, between and after.
   */
  datatype Story = Story(
    early: seq<Action>, others: nat -> seq<Action>, mid: seq<Action>, pid: nat, batch: Batch, input: Input,
    rest: seq<Action>, othersAgain: nat -> seq<Action>)

  function FirstPass(env: Env, start: World, id: nat, gateway: Ingest.Gateway, deliveries: seq<Ingest.Delivery>, story: Story)
    : (pass: Pass)
    ensures |pass.fates| == |pass.refused| == |deliveries|
  {
    DeliverAll(env, id, gateway, Execute(env, start, story.early), story.others, deliveries)
  }

  function Reconciling(env: Env, start: World, id: nat, gateway: Ingest.Gateway, deliveries: seq<Ingest.Delivery>, story: Story)
    : World
  {
    Execute(env, FirstPass(env, start, id, gateway, deliveries, story).world, story.mid)
  }

  function SecondPass(env: Env, start: World, id: nat, gateway: Ingest.Gateway, deliveries: seq<Ingest.Delivery>, story: Story)
    : (pass: Pass)
    ensures |pass.fates| == |pass.refused| == |deliveries|
  {
    DeliverAll(env, id, gateway, Later(env, start, id, gateway, deliveries, story), story.othersAgain, deliveries)
  }

  /** If the first delivery told the run anything, the process `pid` takes that batch and finishes without giving up. */
  ghost predicate IsReconciled(
    env: Env, start: World, id: nat, gateway: Ingest.Gateway, deliveries: seq<Ingest.Delivery>, story: Story)
  {
    var items := Ingest.Contributions(deliveries, FirstPass(env, start, id, gateway, deliveries, story).fates, id);
    var world := Reconciling(env, start, id, gateway, deliveries, story);
    items != [] ==>
      && Ingest.Summarizes(story.batch, items)
      && story.pid in world.procs && world.procs[story.pid].ReconcileWrite?
      && world.procs[story.pid].batch == story.batch
      && story.pid !in Apply(env, world, Step(story.pid, story.input)).procs
  }

  /** The world in which the second delivery begins. */
  function Later(env: Env, start: World, id: nat, gateway: Ingest.Gateway, deliveries: seq<Ingest.Delivery>, story: Story)
    : World
  {
    Execute(env, Apply(env, Reconciling(env, start, id, gateway, deliveries, story), Step(story.pid, story.input)),
            story.rest)
  }

  lemma ReconciliationRemembers(env: Env, world: World, pid: nat, input: Input)
    requires Sound(env, world)
    ensures Sound(env, Apply(env, world, Step(pid, input)))
    ensures Remembers(world.store, Apply(env, world, Step(pid, input)).store)
  {
    ExecuteOne(env, world, Step(pid, input));
    ExecutionRemembers(env, world, [Step(pid, input)]);
  }

  lemma StoryUntilLater(
    env: Env, start: World, id: nat, gateway: Ingest.Gateway, deliveries: seq<Ingest.Delivery>, story: Story)
    requires Initial(start) && OfRun(id, deliveries)
    requires IsReconciled(env, start, id, gateway, deliveries, story)
    ensures var pass, later := FirstPass(env, start, id, gateway, deliveries, story),
                               Later(env, start, id, gateway, deliveries, story);
            && Sound(env, later)
            && (forall k | 0 <= k < |deliveries| :: pass.refused[k] || Noted(later.store, deliveries[k], pass.fates[k]))
            && (Ingest.Contributions(deliveries, pass.fates, id) != [] ==> Absorbed(later.store.run, story.batch))
  {
    InitialIsSound(env, start);
    ExecutionRemembers(env, start, story.early);
    PassIsNoted(env, id, gateway, Execute(env, start, story.early), story.others, deliveries);
    var pass := FirstPass(env, start, id, gateway, deliveries, story);
    var world := Reconciling(env, start, id, gateway, deliveries, story);
    ExecutionRemembers(env, pass.world, story.mid);
    if Ingest.Contributions(deliveries, pass.fates, id) != [] {
      ReconciliationAbsorbs(env, world, story.pid, story.input);
    }
    ReconciliationRemembers(env, world, story.pid, story.input);
    var reconciled := Apply(env, world, Step(story.pid, story.input));
    ExecutionRemembers(env, reconciled, story.rest);
    var later := Execute(env, reconciled, story.rest);
    RememberedThroughout(pass.world.store, world.store, reconciled.store, later.store);
    NotedThroughout(pass.world.store, later.store, deliveries, pass.fates, pass.refused);
  }

  lemma RememberedThroughout(a: Store, b: Store, c: Store, d: Store)
    requires Remembers(a, b) && Remembers(b, c) && Remembers(c, d)
    ensures Remembers(a, d)
  {
  }

  lemma NotedThroughout(
    before: Store, after: Store, deliveries: seq<Ingest.Delivery>, fates: seq<Ingest.Fate>, refused: seq<bool>)
    requires |fates| == |refused| == |deliveries| && Remembers(before, after)
    requires forall k | 0 <= k < |deliveries| :: refused[k] || Noted(before, deliveries[k], fates[k])
    ensures forall k | 0 <= k < |deliveries| :: refused[k] || Noted(after, deliveries[k], fates[k])
  {
    forall k | 0 <= k < |deliveries| && !refused[k] ensures Noted(after, deliveries[k], fates[k]) {
      NotedIsRemembered(before, after, deliveries[k], fates[k]);
    }
  }
}
