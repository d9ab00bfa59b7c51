/** What becomes of each span of a batch, and what the batch leaves in the tables, in the terms of what was there. */
module IngestLaws {
  import opened Wrappers
  import opened Sequences
  import opened Evidence
  import opened RunDomain
  import RunStore
  import opened Ingest

  // ---------------------------------------------------------------- one span

  /** A row of this target under the key of the span. */
  predicate IsUnderItsKey(row: SpanRow, gateway: Gateway, delivery: Delivery) {
    (row.target, row.span.traceId, row.span.spanId) == (gateway.target, delivery.span.traceId, delivery.span.spanId)
  }

  predicate KeyIsStored(tables: Tables, gateway: Gateway, delivery: Delivery) {
    exists row | row in tables.rows :: IsUnderItsKey(row, gateway, delivery)
  }

  predicate SpanIsStored(tables: Tables, gateway: Gateway, delivery: Delivery) {
    exists row | row in tables.rows :: row.target == gateway.target && row.span == delivery.span
  }

  /** Another run of this target has spans of the same trace. */
  predicate TraceIsTaken(tables: Tables, gateway: Gateway, delivery: Delivery) {
    exists row | row in tables.rows ::
      (row.target, row.span.traceId) == (gateway.target, delivery.span.traceId)
      && row.runId != None && row.runId != delivery.runId
  }

  /** The run is of this target, and what it still takes: any span, only late ones, or none for want of room. */
  datatype Openness = Unhosted | Open | Full | Closed

  function OpennessOf(tables: Tables, gateway: Gateway, id: nat): Openness {
    if id !in tables.runs || tables.runs[id].target != gateway.target then Unhosted
    else if Rank(tables.runs[id].state) >= 3 then Closed
    else if tables.runs[id].spanCount < gateway.maxSpans then Open
    else Full
  }

  /**
   * The answer to a span: a known key is a duplicate if the span is the same and a conflict otherwise; a new
   * span without a run is kept unassigned; a new one of a run is in conflict if its trace belongs to another
   * run or the run is full, late if the run is closed, and else inserted.
   */
  lemma AnswerMeaning(tables: Tables, gateway: Gateway, delivery: Delivery)
    ensures var answer := Insert(tables, gateway, delivery).1;
            && (answer == Duplicate <==> SpanIsStored(tables, gateway, delivery))
            && (answer == Unassigned <==> !KeyIsStored(tables, gateway, delivery) && delivery.runId == None)
    ensures delivery.runId.Some? && !KeyIsStored(tables, gateway, delivery) ==>
              var answer := Insert(tables, gateway, delivery).1;
              var open := OpennessOf(tables, gateway, delivery.runId.value);
              && (answer == Conflict <==> TraceIsTaken(tables, gateway, delivery) || open == Full)
              && (answer == Inserted <==> !TraceIsTaken(tables, gateway, delivery) && open == Open)
              && (answer == LateAfterFinalize <==> !TraceIsTaken(tables, gateway, delivery) && open == Closed)
    ensures KeyIsStored(tables, gateway, delivery) && !SpanIsStored(tables, gateway, delivery) ==>
              Insert(tables, gateway, delivery).1 == Conflict
  {
    assert forall row :: SameKey(row, gateway, delivery.span) <==> IsUnderItsKey(row, gateway, delivery);
    assert forall row :: OwnedByOther(row, gateway, delivery) <==>
        (row.target, row.span.traceId) == (gateway.target, delivery.span.traceId)
        && row.runId != None && row.runId != delivery.runId;
    assert SpanIsStored(tables, gateway, delivery) <==>
        exists row | row in tables.rows :: SameKey(row, gateway, delivery.span) && row.span == delivery.span;
  }

  /** The row a span is stored under; a conflicting or repeated span is not stored. */
  function RowFor(gateway: Gateway, delivery: Delivery, fate: Fate): seq<SpanRow> {
    if fate in {Answered(Inserted), Answered(Unassigned)} then [SpanRow(gateway.target, delivery.runId, delivery.span, false)]
    else if fate == Answered(LateAfterFinalize) then [SpanRow(gateway.target, delivery.runId, delivery.span, true)]
    else []
  }

  predicate CountsFor(delivery: Delivery, fate: Fate, id: nat) {
    delivery.runId == Some(id) && fate == Answered(Inserted)
  }

  /** What one received span leaves: its row, if it is stored, and one more span counted, if it is inserted. */
  lemma ReceivedMeaning(progress: Progress, gateway: Gateway, delivery: Delivery)
    requires AuthorizedAreHosted(progress, gateway)
    ensures var (after, fate) := Receive(progress, gateway, delivery);
            && after.tables.rows == progress.tables.rows + RowFor(gateway, delivery, fate)
            && after.tables.runs.Keys == progress.tables.runs.Keys
            && forall id | id in progress.tables.runs ::
                 after.tables.runs[id] == progress.tables.runs[id].(
                   spanCount := progress.tables.runs[id].spanCount + if CountsFor(delivery, fate, id) then 1 else 0)
  {
  }

  // ---------------------------------------------------------------- a batch

  /** The rows of all spans of a batch that are stored, in order. */
  function RowsFor(gateway: Gateway, deliveries: seq<Delivery>, fates: seq<Fate>): seq<SpanRow>
    requires |fates| == |deliveries|
    decreases |deliveries|
  {
    if deliveries == [] then []
    else
      var n := |deliveries| - 1;
      RowsFor(gateway, deliveries[..n], fates[..n]) + RowFor(gateway, deliveries[n], fates[n])
  }

  function CountFor(deliveries: seq<Delivery>, fates: seq<Fate>, id: nat): nat
    requires |fates| == |deliveries|
    decreases |deliveries|
  {
    if deliveries == [] then 0
    else
      var n := |deliveries| - 1;
      CountFor(deliveries[..n], fates[..n], id) + if CountsFor(deliveries[n], fates[n], id) then 1 else 0
  }

  /**
   * A batch appends exactly the rows of its inserted, unassigned and late spans, under their own run and in the
   * order they came, and counts for each run exactly its inserted ones; nothing else about any run changes.
   */
  lemma {:induction false} BatchStoresItsSpans(progress: Progress, gateway: Gateway, deliveries: seq<Delivery>)
    requires AuthorizedAreHosted(progress, gateway)
    ensures var (after, fates) := ReceiveAll(progress, gateway, deliveries);
            && after.tables.rows == progress.tables.rows + RowsFor(gateway, deliveries, fates)
            && after.tables.runs.Keys == progress.tables.runs.Keys
            && forall id | id in progress.tables.runs ::
                 after.tables.runs[id] == progress.tables.runs[id].(
                   spanCount := progress.tables.runs[id].spanCount + CountFor(deliveries, fates, id))
    decreases |deliveries|
  {
    if deliveries != [] {
      var n := |deliveries| - 1;
      BatchStoresItsSpans(progress, gateway, deliveries[..n]);
      AuthorizedRunsAreFound(progress, gateway, deliveries[..n]);
      ReceivedMeaning(ReceiveAll(progress, gateway, deliveries[..n]).0, gateway, deliveries[n]);
      var fates := ReceiveAll(progress, gateway, deliveries).1;
      assert fates[..n] == ReceiveAll(progress, gateway, deliveries[..n]).1;
    }
  }

  // ---------------------------------------------------------------- who is turned away

  /** The tables as the span at `k` of a batch finds them. */
  function TablesAt(tables: Tables, gateway: Gateway, deliveries: seq<Delivery>, k: nat): Tables
    requires k <= |deliveries|
  {
    ReceiveAll(Started(tables), gateway, deliveries[..k]).0.tables
  }

  /** The first valid span of the run in the batch. */
  predicate IsFirstOf(deliveries: seq<Delivery>, id: nat, k: nat)
    requires k < |deliveries|
  {
    && deliveries[k].valid && deliveries[k].runId == Some(id)
    && forall j | 0 <= j < k :: !(deliveries[j].valid && deliveries[j].runId == Some(id))
  }

  /** The run was of this target and had room when the batch first named it. */
  ghost predicate Admits(tables: Tables, gateway: Gateway, deliveries: seq<Delivery>, id: nat) {
    exists k: nat :: k < |deliveries| && IsFirstOf(deliveries, id, k) && HasRoom(TablesAt(tables, gateway, deliveries, k), gateway, id)
  }

  predicate HasRoom(tables: Tables, gateway: Gateway, id: nat) {
    id in tables.runs && tables.runs[id].target == gateway.target && tables.runs[id].spanCount < gateway.maxSpans
  }

  ghost predicate Names(deliveries: seq<Delivery>, id: nat) {
    exists k: nat :: k < |deliveries| && deliveries[k].valid && deliveries[k].runId == Some(id)
  }

  lemma NamesByLast(deliveries: seq<Delivery>, id: nat)
    requires deliveries != []
    ensures var n := |deliveries| - 1;
            Names(deliveries, id) <==> Names(deliveries[..n], id) || (deliveries[n].valid && deliveries[n].runId == Some(id))
  {
    var n := |deliveries| - 1;
    if Names(deliveries[..n], id) {
      var k: nat :| k < n && deliveries[..n][k].valid && deliveries[..n][k].runId == Some(id);
      assert deliveries[k].valid;
    }
    if k: nat :| k < n && deliveries[k].valid && deliveries[k].runId == Some(id) {
      assert deliveries[..n][k] == deliveries[k];
    }
  }

  lemma AdmitsAtOnce(tables: Tables, gateway: Gateway, deliveries: seq<Delivery>, n: nat, id: nat, k: nat)
    requires k < n <= |deliveries|
    ensures IsFirstOf(deliveries[..n], id, k) <==> IsFirstOf(deliveries, id, k)
    ensures TablesAt(tables, gateway, deliveries[..n], k) == TablesAt(tables, gateway, deliveries, k)
  {
    assert deliveries[..n][..k] == deliveries[..k];
    assert forall j | 0 <= j < k :: deliveries[..n][j] == deliveries[j];
  }

  /** Whether a run is admitted is settled at its first valid span. */
  lemma AdmitsByLast(tables: Tables, gateway: Gateway, deliveries: seq<Delivery>, id: nat)
    requires deliveries != []
    ensures var n := |deliveries| - 1;
            Admits(tables, gateway, deliveries, id) <==>
              || Admits(tables, gateway, deliveries[..n], id)
              || (IsFirstOf(deliveries, id, n) && HasRoom(TablesAt(tables, gateway, deliveries, n), gateway, id))
  {
    var n := |deliveries| - 1;
    if Admits(tables, gateway, deliveries[..n], id) {
      var k: nat :| k < n && IsFirstOf(deliveries[..n], id, k) && HasRoom(TablesAt(tables, gateway, deliveries[..n], k), gateway, id);
      AdmitsAtOnce(tables, gateway, deliveries, n, id, k);
    } else if Admits(tables, gateway, deliveries, id) {
      var k: nat :| k <= n && IsFirstOf(deliveries, id, k) && HasRoom(TablesAt(tables, gateway, deliveries, k), gateway, id);
      if k < n {
        AdmitsAtOnce(tables, gateway, deliveries, n, id, k);
      }
    }
  }

  lemma FirstIfUnnamed(deliveries: seq<Delivery>, id: nat)
    requires deliveries != []
    ensures var n := |deliveries| - 1;
            IsFirstOf(deliveries, id, n) <==>
              deliveries[n].valid && deliveries[n].runId == Some(id) && !Names(deliveries[..n], id)
  {
    var n := |deliveries| - 1;
    if j: nat :| j < n && deliveries[j].valid && deliveries[j].runId == Some(id) {
      assert deliveries[..n][j] == deliveries[j];
    }
  }

  /** The cached authorizations of a batch are those of the runs it has named so far. */
  lemma {:induction false} AuthorizationMeaning(tables: Tables, gateway: Gateway, deliveries: seq<Delivery>, id: nat)
    ensures var authorized := ReceiveAll(Started(tables), gateway, deliveries).0.authorized;
            && (id in authorized <==> Names(deliveries, id))
            && (id in authorized ==> (authorized[id] <==> Admits(tables, gateway, deliveries, id)))
    decreases |deliveries|
  {
    if deliveries != [] {
      var n := |deliveries| - 1;
      AuthorizationMeaning(tables, gateway, deliveries[..n], id);
      NamesByLast(deliveries, id);
      AdmitsByLast(tables, gateway, deliveries, id);
      FirstIfUnnamed(deliveries, id);
      NotAdmittedUnnamed(tables, gateway, deliveries[..n], id);
    }
  }

  lemma NotAdmittedUnnamed(tables: Tables, gateway: Gateway, deliveries: seq<Delivery>, id: nat)
    ensures Admits(tables, gateway, deliveries, id) ==> Names(deliveries, id)
  {
  }

  /** Later spans do not change the fate of an earlier one. */
  lemma {:induction false} FatesAreFinal(progress: Progress, gateway: Gateway, deliveries: seq<Delivery>, k: nat)
    requires k < |deliveries|
    ensures ReceiveAll(progress, gateway, deliveries).1[k] == ReceiveAll(progress, gateway, deliveries[..k + 1]).1[k]
    decreases |deliveries|
  {
    var n := |deliveries| - 1;
    if k < n {
      FatesAreFinal(progress, gateway, deliveries[..n], k);
      assert deliveries[..n][..k + 1] == deliveries[..k + 1];
    } else {
      assert deliveries[..k + 1] == deliveries;
    }
  }

  lemma LastTurnedAwayIff(tables: Tables, gateway: Gateway, deliveries: seq<Delivery>)
    requires deliveries != []
    ensures var (n, fates) := (|deliveries| - 1, ReceiveAll(Started(tables), gateway, deliveries).1);
            && (fates[n] == Rejected <==>
                  || !deliveries[n].valid
                  || (deliveries[n].runId.Some? && !Admits(tables, gateway, deliveries, deliveries[n].runId.value)))
            && (fates[n] != Rejected ==>
                  fates[n] == Answered(Insert(TablesAt(tables, gateway, deliveries, n), gateway, deliveries[n]).1))
  {
    var n := |deliveries| - 1;
    if deliveries[n].valid && deliveries[n].runId.Some? {
      AuthorizationMeaning(tables, gateway, deliveries, deliveries[n].runId.value);
      NamesByLast(deliveries, deliveries[n].runId.value);
    }
  }

  /**
   * A span is turned away before the store sees it exactly if it is malformed, or it names a run that was not
   * of this target or had no room when the batch first named it; any other is answered by the store.
   */
  lemma TurnedAwayIff(tables: Tables, gateway: Gateway, deliveries: seq<Delivery>, k: nat)
    requires k < |deliveries|
    ensures var (delivery, fate) := (deliveries[k], ReceiveAll(Started(tables), gateway, deliveries).1[k]);
            && (fate == Rejected <==>
                  || !delivery.valid
                  || (delivery.runId.Some? && !Admits(tables, gateway, deliveries[..k + 1], delivery.runId.value)))
            && (fate != Rejected ==>
                  fate == Answered(Insert(TablesAt(tables, gateway, deliveries, k), gateway, delivery).1))
  {
    FatesAreFinal(Started(tables), gateway, deliveries, k);
    LastTurnedAwayIff(tables, gateway, deliveries[..k + 1]);
    assert deliveries[..k + 1][..k] == deliveries[..k];
  }

  // ---------------------------------------------------------------- the counters

  /** How many spans met this fate. */
  function Met(fates: seq<Fate>, fate: Fate): nat {
    |Filter((other: Fate) => other == fate, fates)|
  }

  /** The counters of a batch by what became of its spans. */
  lemma {:induction false} CountersMeaning(counts: Counts, fates: seq<Fate>)
    requires AreCountsOf(counts, fates)
    ensures counts.duplicates == Met(fates, Answered(Duplicate))
    ensures counts.conflicts == Met(fates, Answered(Conflict))
    ensures counts.unassigned == Met(fates, Answered(Unassigned))
    ensures counts.late == Met(fates, Answered(LateAfterFinalize))
    ensures counts.accepted ==
              Met(fates, Answered(Inserted)) + Met(fates, Answered(Duplicate)) + Met(fates, Answered(Unassigned))
    ensures counts.rejected ==
              Met(fates, Rejected) + Met(fates, Answered(Conflict)) + Met(fates, Answered(LateAfterFinalize))
    decreases |fates|
  {
    if fates != [] {
      var n := |fates| - 1;
      assert fates == fates[..n] + [fates[n]];
      CountersOf(fates[..n]);
      CountersMeaning(CountersOfAll(fates[..n]), fates[..n]);
      MetOneMore(fates[..n], fates[n]);
      TalliesOneMore(fates[..n], fates[n]);
    }
  }

  function CountersOfAll(fates: seq<Fate>): Counts {
    Counts(Tally(IsAccepted, fates), Tally(IsRejected, fates), Tally(IsDuplicate, fates), Tally(IsConflict, fates),
           Tally(IsUnassigned, fates), Tally(IsLate, fates))
  }

  lemma CountersOf(fates: seq<Fate>)
    ensures AreCountsOf(CountersOfAll(fates), fates)
  {
  }

  lemma MetOneMore(fates: seq<Fate>, fate: Fate)
    ensures forall other :: Met(fates + [fate], other) == Met(fates, other) + if other == fate then 1 else 0
  {
    forall other ensures Met(fates + [fate], other) == Met(fates, other) + if other == fate then 1 else 0 {
      FilterConcat((one: Fate) => one == other, fates, [fate]);
    }
  }

  lemma TalliesOneMore(fates: seq<Fate>, fate: Fate)
    ensures CountersOfAll(fates + [fate]) == Recorded(CountersOfAll(fates), fate)
  {
    TallyAppend(IsAccepted, fates, fate);
    TallyAppend(IsRejected, fates, fate);
    TallyAppend(IsDuplicate, fates, fate);
    TallyAppend(IsConflict, fates, fate);
    TallyAppend(IsUnassigned, fates, fate);
    TallyAppend(IsLate, fates, fate);
  }
}
