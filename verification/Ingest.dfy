/** Ingesting one telemetry batch: what each span becomes, and what the batch tells each run. */
module Ingest {
  import opened Wrappers
  import opened Sequences
  import opened Evidence
  import opened RunDomain
  import opened RunProtocol
  import RunStore

  datatype SpanRow = SpanRow(target: string, runId: Option<nat>, span: RunStore.Span, late: bool)

  datatype RunEntry = RunEntry(target: string, state: RunState, spanCount: nat)

  datatype Tables = Tables(rows: seq<SpanRow>, runs: map<nat, RunEntry>)

  /** A received span after redaction and correlation; `valid` when both it and its correlation are well formed. */
  datatype Delivery = Delivery(
    valid: bool, runId: Option<nat>, terminal: bool, terminalState: Option<string>, receivedAt: Time,
    span: RunStore.Span)

  datatype Outcome = Inserted | Duplicate | Conflict | Unassigned | LateAfterFinalize | RunMissing

  /** The gateway of one target. */
  datatype Gateway = Gateway(target: string, maxSpans: nat)

  // ---------------------------------------------------------------- inserting one span

  predicate SameKey(row: SpanRow, gateway: Gateway, span: RunStore.Span) {
    row.target == gateway.target && row.span.traceId == span.traceId && row.span.spanId == span.spanId
  }

  predicate OwnedByOther(row: SpanRow, gateway: Gateway, delivery: Delivery) {
    && row.target == gateway.target && row.span.traceId == delivery.span.traceId
    && row.runId.Some? && row.runId != delivery.runId
  }

  predicate Hosts(tables: Tables, gateway: Gateway, id: nat) {
    id in tables.runs && tables.runs[id].target == gateway.target
  }

  function Counted(tables: Tables, id: nat): Tables
    requires id in tables.runs
  {
    tables.(runs := tables.runs[id := tables.runs[id].(spanCount := tables.runs[id].spanCount + 1)])
  }

  function Insert(tables: Tables, gateway: Gateway, delivery: Delivery): (Tables, Outcome) {
    var Delivery(_, runId, _, _, _, span) := delivery;
    var row := SpanRow(gateway.target, runId, span, false);
    if exists row | row in tables.rows :: SameKey(row, gateway, span) then
      (tables, if exists row | row in tables.rows :: SameKey(row, gateway, span) && row.span == span then Duplicate
               else Conflict)
    else if runId.None? then (tables.(rows := tables.rows + [row]), Unassigned)
    else if exists row | row in tables.rows :: OwnedByOther(row, gateway, delivery) then (tables, Conflict)
    else if !Hosts(tables, gateway, runId.value) then (tables, RunMissing)
    else if !AcceptsSpans(tables.runs[runId.value].state) then
      (tables.(rows := tables.rows + [row.(late := true)]), LateAfterFinalize)
    else if tables.runs[runId.value].spanCount >= gateway.maxSpans then (tables, Conflict)
    else (Counted(tables.(rows := tables.rows + [row]), runId.value), Inserted)
  }

  // ---------------------------------------------------------------- one batch

  /** What became of a span: turned away before the store saw it, or answered by the store. */
  datatype Fate = Rejected | Answered(outcome: Outcome)

  /** The tables, and which runs this batch was found to be authorized for. */
  datatype Progress = Progress(tables: Tables, authorized: map<nat, bool>)

  predicate Authorizes(tables: Tables, gateway: Gateway, id: nat) {
    Hosts(tables, gateway, id) && tables.runs[id].spanCount < gateway.maxSpans
  }

  function Receive(progress: Progress, gateway: Gateway, delivery: Delivery): (Progress, Fate) {
    var Progress(tables, authorized) := progress;
    if !delivery.valid then (progress, Rejected)
    else
      var authorized' :=
        if delivery.runId.None? || delivery.runId.value in authorized then authorized
        else authorized[delivery.runId.value := Authorizes(tables, gateway, delivery.runId.value)];
      if delivery.runId.Some? && !authorized'[delivery.runId.value] then (Progress(tables, authorized'), Rejected)
      else
        var (tables', outcome) := Insert(tables, gateway, delivery);
        (Progress(tables', authorized'), Answered(outcome))
  }

  function ReceiveAll(progress: Progress, gateway: Gateway, deliveries: seq<Delivery>): (r: (Progress, seq<Fate>))
    ensures |r.1| == |deliveries|
    decreases |deliveries|
  {
    if deliveries == [] then (progress, [])
    else
      var (before, fates) := ReceiveAll(progress, gateway, deliveries[..|deliveries| - 1]);
      var (after, fate) := Receive(before, gateway, deliveries[|deliveries| - 1]);
      (after, fates + [fate])
  }

  function Started(tables: Tables): Progress {
    Progress(tables, map[])
  }

  // ---------------------------------------------------------------- what the batch tells a run

  /** A span answered as inserted or as a duplicate, as its run sees it. */
  datatype Contribution = Contribution(receivedAt: Time, inserted: bool, terminal: bool, terminalState: Option<string>)

  predicate Contributes(delivery: Delivery, fate: Fate, id: nat) {
    delivery.runId == Some(id) && (fate == Answered(Inserted) || fate == Answered(Duplicate))
  }

  function ContributionOf(delivery: Delivery, fate: Fate): Contribution {
    Contribution(delivery.receivedAt, fate == Answered(Inserted), delivery.terminal, delivery.terminalState)
  }

  /** What the spans of a batch contribute to the run `id`, in order. */
  function Contributions(deliveries: seq<Delivery>, fates: seq<Fate>, id: nat): seq<Contribution>
    requires |deliveries| == |fates|
    decreases |deliveries|
  {
    if deliveries == [] then []
    else
      var n := |deliveries| - 1;
      Contributions(deliveries[..n], fates[..n], id)
      + if Contributes(deliveries[n], fates[n], id) then [ContributionOf(deliveries[n], fates[n])] else []
  }

  /** The batch of a run: latest receive time, whether anything is new, and the first terminal span. */
  ghost predicate Summarizes(batch: Batch, items: seq<Contribution>) {
    && (exists k | 0 <= k < |items| :: items[k].receivedAt == batch.latestReceivedAt)
    && (forall k | 0 <= k < |items| :: items[k].receivedAt <= batch.latestReceivedAt)
    && (batch.insertedAny <==> exists k | 0 <= k < |items| :: items[k].inserted)
    && (batch.terminal <==> exists k | 0 <= k < |items| :: items[k].terminal)
    && (batch.terminal ==>
          exists k | 0 <= k < |items| ::
            && items[k].terminal && items[k].terminalState == batch.terminalState
            && forall j | 0 <= j < k :: !items[j].terminal)
  }

  ghost predicate AreBatchesOf(batches: map<nat, Batch>, deliveries: seq<Delivery>, fates: seq<Fate>)
    requires |deliveries| == |fates|
  {
    && (forall id :: id in batches <==> Contributions(deliveries, fates, id) != [])
    && (forall id | id in batches :: Summarizes(batches[id], Contributions(deliveries, fates, id)))
  }

  // ---------------------------------------------------------------- the counters

  datatype Counts = Counts(accepted: nat, rejected: nat, duplicates: nat, conflicts: nat, unassigned: nat, late: nat)

  predicate IsAccepted(fate: Fate) {
    fate == Answered(Inserted) || fate == Answered(Duplicate) || fate == Answered(Unassigned)
  }

  predicate IsRejected(fate: Fate) {
    fate == Rejected || fate == Answered(Conflict) || fate == Answered(LateAfterFinalize)
  }

  predicate IsDuplicate(fate: Fate) {
    fate == Answered(Duplicate)
  }

  predicate IsConflict(fate: Fate) {
    fate == Answered(Conflict)
  }

  predicate IsUnassigned(fate: Fate) {
    fate == Answered(Unassigned)
  }

  predicate IsLate(fate: Fate) {
    fate == Answered(LateAfterFinalize)
  }

  function Tally(p: Fate -> bool, fates: seq<Fate>): nat {
    |Filter(p, fates)|
  }

  ghost predicate AreCountsOf(counts: Counts, fates: seq<Fate>) {
    && counts.accepted == Tally(IsAccepted, fates)
    && counts.rejected == Tally(IsRejected, fates)
    && counts.duplicates == Tally(IsDuplicate, fates)
    && counts.conflicts == Tally(IsConflict, fates)
    && counts.unassigned == Tally(IsUnassigned, fates)
    && counts.late == Tally(IsLate, fates)
  }

  lemma TallyAppend(p: Fate -> bool, fates: seq<Fate>, fate: Fate)
    ensures Tally(p, fates + [fate]) == Tally(p, fates) + if p(fate) then 1 else 0
  {
    FilterConcat(p, fates, [fate]);
  }

  lemma CountsAppend(counts: Counts, fates: seq<Fate>, fate: Fate, after: Counts)
    requires AreCountsOf(counts, fates)
    requires after == Counts(
      counts.accepted + (if IsAccepted(fate) then 1 else 0), counts.rejected + (if IsRejected(fate) then 1 else 0),
      counts.duplicates + (if IsDuplicate(fate) then 1 else 0), counts.conflicts + (if IsConflict(fate) then 1 else 0),
      counts.unassigned + (if IsUnassigned(fate) then 1 else 0), counts.late + (if IsLate(fate) then 1 else 0))
    ensures AreCountsOf(after, fates + [fate])
  {
    TallyAppend(IsAccepted, fates, fate);
    TallyAppend(IsRejected, fates, fate);
    TallyAppend(IsDuplicate, fates, fate);
    TallyAppend(IsConflict, fates, fate);
    TallyAppend(IsUnassigned, fates, fate);
    TallyAppend(IsLate, fates, fate);
  }

  lemma AcceptedOrRejected(fate: Fate)
    requires fate != Answered(RunMissing)
    ensures IsAccepted(fate) <==> !IsRejected(fate)
  {
    match fate
    case Rejected =>
    case Answered(outcome) =>
      match outcome
      case RunMissing => assert false;
      case _ =>
  }

  /** The counters of a batch fit together: each span is accepted or rejected, and the finer counts lie within these. */
  lemma {:induction false} CountsAddUp(counts: Counts, fates: seq<Fate>)
    requires AreCountsOf(counts, fates)
    requires Answered(RunMissing) !in fates
    ensures counts.accepted + counts.rejected == |fates|
    ensures counts.duplicates + counts.unassigned <= counts.accepted
    ensures counts.conflicts + counts.late <= counts.rejected
    decreases |fates|
  {
    if fates != [] {
      var n := |fates| - 1;
      var before := Counts(
        Tally(IsAccepted, fates[..n]), Tally(IsRejected, fates[..n]), Tally(IsDuplicate, fates[..n]),
        Tally(IsConflict, fates[..n]), Tally(IsUnassigned, fates[..n]), Tally(IsLate, fates[..n]));
      CountsAddUp(before, fates[..n]);
      assert fates == fates[..n] + [fates[n]];
      assert fates[n] in fates;
      AcceptedOrRejected(fates[n]);
      TallyAppend(IsAccepted, fates[..n], fates[n]);
      TallyAppend(IsRejected, fates[..n], fates[n]);
      TallyAppend(IsDuplicate, fates[..n], fates[n]);
      TallyAppend(IsConflict, fates[..n], fates[n]);
      TallyAppend(IsUnassigned, fates[..n], fates[n]);
      TallyAppend(IsLate, fates[..n], fates[n]);
    }
  }

  // ---------------------------------------------------------------- the loop

  /** What one more span of a run does to its batch. */
  function Extended(batch: Option<Batch>, item: Contribution): Batch {
    match batch
    case None => Batch(item.receivedAt, item.inserted, item.terminal, item.terminalState)
    case Some(batch) =>
      Batch(Max(batch.latestReceivedAt, item.receivedAt), batch.insertedAny || item.inserted,
            batch.terminal || item.terminal,
            if item.terminal && !batch.terminal then item.terminalState else batch.terminalState)
  }

  lemma ExtendedSummarizes(batch: Option<Batch>, items: seq<Contribution>, item: Contribution)
    requires match batch case None => items == [] case Some(batch) => Summarizes(batch, items)
    ensures Summarizes(Extended(batch, item), items + [item])
  {
    var longer := items + [item];
    assert longer[|items|] == item;
    assert forall k | 0 <= k < |items| :: longer[k] == items[k];
    if batch.Some? {
      var k :| 0 <= k < |items| && items[k].receivedAt == batch.value.latestReceivedAt;
      assert longer[k].receivedAt == batch.value.latestReceivedAt;
      FirstTerminalStays(batch.value, items, item);
    }
  }

  lemma FirstTerminalStays(batch: Batch, items: seq<Contribution>, item: Contribution)
    requires Summarizes(batch, items)
    ensures var after, longer := Extended(Some(batch), item), items + [item];
            && (after.insertedAny <==> exists k | 0 <= k < |longer| :: longer[k].inserted)
            && (after.terminal <==> exists k | 0 <= k < |longer| :: longer[k].terminal)
            && (after.terminal ==>
                  exists k | 0 <= k < |longer| ::
                    && longer[k].terminal && longer[k].terminalState == after.terminalState
                    && forall j | 0 <= j < k :: !longer[j].terminal)
  {
    var longer := items + [item];
    assert longer[|items|] == item;
    assert forall k | 0 <= k < |items| :: longer[k] == items[k];
    if batch.insertedAny {
      var k :| 0 <= k < |items| && items[k].inserted;
      assert longer[k].inserted;
    }
    if batch.terminal {
      var k :| 0 <= k < |items| && items[k].terminal && items[k].terminalState == batch.terminalState
               && forall j | 0 <= j < k :: !items[j].terminal;
      assert longer[k].terminal;
    }
  }

  lemma BatchesAppend(
    batches: map<nat, Batch>, deliveries: seq<Delivery>, fates: seq<Fate>, delivery: Delivery, fate: Fate,
    after: map<nat, Batch>)
    requires |deliveries| == |fates| && AreBatchesOf(batches, deliveries, fates)
    requires after ==
      if delivery.runId.Some? && Contributes(delivery, fate, delivery.runId.value) then
        var id := delivery.runId.value;
        batches[id := Extended(if id in batches then Some(batches[id]) else None, ContributionOf(delivery, fate))]
      else batches
    ensures AreBatchesOf(after, deliveries + [delivery], fates + [fate])
  {
    var ds, fs, n := deliveries + [delivery], fates + [fate], |deliveries|;
    assert ds[..n] == deliveries && fs[..n] == fates;
    forall id: nat
      ensures Contributions(ds, fs, id) == Contributions(deliveries, fates, id)
                + if Contributes(delivery, fate, id) then [ContributionOf(delivery, fate)] else []
    {
    }
    forall id: nat | id in after ensures Summarizes(after[id], Contributions(ds, fs, id)) {
      if Contributes(delivery, fate, id) {
        ExtendedSummarizes(if id in batches then Some(batches[id]) else None,
                           Contributions(deliveries, fates, id), ContributionOf(delivery, fate));
      } else {
        assert Contributions(ds, fs, id) == Contributions(deliveries, fates, id);
      }
    }
  }

  /** The counters after one more span. */
  function Recorded(counts: Counts, fate: Fate): Counts {
    Counts(
      counts.accepted + (if IsAccepted(fate) then 1 else 0), counts.rejected + (if IsRejected(fate) then 1 else 0),
      counts.duplicates + (if IsDuplicate(fate) then 1 else 0), counts.conflicts + (if IsConflict(fate) then 1 else 0),
      counts.unassigned + (if IsUnassigned(fate) then 1 else 0), counts.late + (if IsLate(fate) then 1 else 0))
  }

  /** The run batches after one more span. */
  function Grown(batches: map<nat, Batch>, delivery: Delivery, fate: Fate): map<nat, Batch> {
    if delivery.runId.Some? && Contributes(delivery, fate, delivery.runId.value) then
      var id := delivery.runId.value;
      batches[id := Extended(if id in batches then Some(batches[id]) else None, ContributionOf(delivery, fate))]
    else batches
  }

  method RecordOutcome(counts: Counts, outcome: Outcome) returns (after: Counts)
    ensures after == Recorded(counts, Answered(outcome))
  {
    match outcome
    case Inserted => after := counts.(accepted := counts.accepted + 1);
    case Duplicate => after := counts.(accepted := counts.accepted + 1, duplicates := counts.duplicates + 1);
    case Conflict => after := counts.(rejected := counts.rejected + 1, conflicts := counts.conflicts + 1);
    case Unassigned => after := counts.(accepted := counts.accepted + 1, unassigned := counts.unassigned + 1);
    case LateAfterFinalize => after := counts.(rejected := counts.rejected + 1, late := counts.late + 1);
    case RunMissing => after := counts;
  }

  method GrowBatches(batches: map<nat, Batch>, delivery: Delivery, outcome: Outcome) returns (after: map<nat, Batch>)
    ensures after == Grown(batches, delivery, Answered(outcome))
  {
    after := batches;
    if (outcome == Inserted || outcome == Duplicate) && delivery.runId.Some? {
      var id := delivery.runId.value;
      if id in batches {
        var batch := batches[id];
        batch := batch.(
          latestReceivedAt := Max(batch.latestReceivedAt, delivery.receivedAt),
          insertedAny := batch.insertedAny || outcome == Inserted);
        if delivery.terminal && !batch.terminal {
          batch := batch.(terminal := true, terminalState := delivery.terminalState);
        }
        after := batches[id := batch];
      } else {
        after := batches[id := Batch(
          delivery.receivedAt, outcome == Inserted, delivery.terminal, delivery.terminalState)];
      }
    }
  }

  /** One span: checked, authorized once per run and batch, and offered to the store. */
  method ReceiveSpan(tables: Tables, authorized: map<nat, bool>, gateway: Gateway, delivery: Delivery)
    returns (after: Tables, authorizedAfter: map<nat, bool>, answer: Option<Outcome>)
    ensures Receive(Progress(tables, authorized), gateway, delivery)
              == (Progress(after, authorizedAfter), if answer.Some? then Answered(answer.value) else Rejected)
  {
    after, authorizedAfter, answer := tables, authorized, None;
    if !delivery.valid {
      return;
    }
    if delivery.runId.Some? {
      var id := delivery.runId.value;
      if id !in authorized {
        authorizedAfter := authorized[id := Authorizes(tables, gateway, id)];
      }
      if !authorizedAfter[id] {
        return;
      }
    }
    var (stored, outcome) := Insert(tables, gateway, delivery);
    after, answer := stored, Some(outcome);
  }

  lemma ReceiveAllAppend(progress: Progress, gateway: Gateway, deliveries: seq<Delivery>, delivery: Delivery)
    ensures var (before, fates) := ReceiveAll(progress, gateway, deliveries);
            var (after, fate) := Receive(before, gateway, delivery);
            ReceiveAll(progress, gateway, deliveries + [delivery]) == (after, fates + [fate])
  {
    assert (deliveries + [delivery])[..|deliveries|] == deliveries;
  }

  /** Where the loop is after the given spans. */
  ghost predicate Ingested(
    tables: Tables, gateway: Gateway, deliveries: seq<Delivery>, progress: Progress, counts: Counts,
    batches: map<nat, Batch>, fates: seq<Fate>)
  {
    && (progress, fates) == ReceiveAll(Started(tables), gateway, deliveries)
    && AreCountsOf(counts, fates)
    && AreBatchesOf(batches, deliveries, fates)
  }

  lemma IngestedOneMore(
    tables: Tables, gateway: Gateway, deliveries: seq<Delivery>, progress: Progress, counts: Counts,
    batches: map<nat, Batch>, fates: seq<Fate>, delivery: Delivery)
    requires Ingested(tables, gateway, deliveries, progress, counts, batches, fates)
    ensures var (after, fate) := Receive(progress, gateway, delivery);
            Ingested(tables, gateway, deliveries + [delivery], after, Recorded(counts, fate),
                     Grown(batches, delivery, fate), fates + [fate])
  {
    var (after, fate) := Receive(progress, gateway, delivery);
    ReceiveAllAppend(Started(tables), gateway, deliveries, delivery);
    CountsAppend(counts, fates, fate, Recorded(counts, fate));
    BatchesAppend(batches, deliveries, fates, delivery, fate, Grown(batches, delivery, fate));
  }

  /** One round: the span is received, and the counters and the run batches follow its fate. */
  method IngestSpan(
    ghost tables: Tables, gateway: Gateway, ghost deliveries: seq<Delivery>, before: Tables, authorized: map<nat, bool>,
    counts: Counts, batches: map<nat, Batch>, ghost fates: seq<Fate>, delivery: Delivery)
    returns (after: Tables, authorizedAfter: map<nat, bool>, countsAfter: Counts, batchesAfter: map<nat, Batch>,
             ghost fatesAfter: seq<Fate>)
    requires Ingested(tables, gateway, deliveries, Progress(before, authorized), counts, batches, fates)
    ensures Ingested(tables, gateway, deliveries + [delivery], Progress(after, authorizedAfter), countsAfter,
                     batchesAfter, fatesAfter)
  {
    IngestedOneMore(tables, gateway, deliveries, Progress(before, authorized), counts, batches, fates, delivery);
    var answer;
    after, authorizedAfter, answer := ReceiveSpan(before, authorized, gateway, delivery);
    fatesAfter := fates + [if answer.Some? then Answered(answer.value) else Rejected];
    if answer.None? {
      countsAfter, batchesAfter := counts.(rejected := counts.rejected + 1), batches;
    } else {
      batchesAfter := GrowBatches(batches, delivery, answer.value);
      countsAfter := RecordOutcome(counts, answer.value);
    }
  }

  /** The loop over the spans, growing the counters and the map of run batches. */
  method IngestSpans(tables: Tables, gateway: Gateway, deliveries: seq<Delivery>)
    returns (after: Tables, authorized: map<nat, bool>, counts: Counts, batches: map<nat, Batch>, ghost fates: seq<Fate>)
    ensures Ingested(tables, gateway, deliveries, Progress(after, authorized), counts, batches, fates)
  {
    after, counts, batches, fates := tables, Counts(0, 0, 0, 0, 0, 0), map[], [];
    authorized := map[];
    for i := 0 to |deliveries|
      invariant Ingested(tables, gateway, deliveries[..i], Progress(after, authorized), counts, batches, fates)
    {
      assert deliveries[..i + 1] == deliveries[..i] + [deliveries[i]];
      after, authorized, counts, batches, fates :=
        IngestSpan(tables, gateway, deliveries[..i], after, authorized, counts, batches, fates, deliveries[i]);
    }
    assert deliveries[..|deliveries|] == deliveries;
  }

  /** Ingests a batch: the tables, the counters, and what the batch tells each run. */
  method IngestBatch(tables: Tables, gateway: Gateway, deliveries: seq<Delivery>)
    returns (after: Tables, counts: Counts, batches: map<nat, Batch>, ghost fates: seq<Fate>)
    ensures after == ReceiveAll(Started(tables), gateway, deliveries).0.tables
    ensures fates == ReceiveAll(Started(tables), gateway, deliveries).1
    ensures AreCountsOf(counts, fates) && AreBatchesOf(batches, deliveries, fates)
    ensures counts.accepted + counts.rejected == |deliveries|
    ensures counts.duplicates + counts.unassigned <= counts.accepted
    ensures counts.conflicts + counts.late <= counts.rejected
  {
    var authorized;
    after, authorized, counts, batches, fates := IngestSpans(tables, gateway, deliveries);
    AuthorizedRunsAreFound(Started(tables), gateway, deliveries);
    CountsAddUp(counts, fates);
  }

  // ---------------------------------------------------------------- what ingestion keeps

  /** Runs found authorized are hosted, so the store never answers that a run is missing. */
  ghost predicate AuthorizedAreHosted(progress: Progress, gateway: Gateway) {
    forall id | id in progress.authorized && progress.authorized[id] :: Hosts(progress.tables, gateway, id)
  }

  lemma {:induction false} AuthorizedRunsAreFound(progress: Progress, gateway: Gateway, deliveries: seq<Delivery>)
    requires AuthorizedAreHosted(progress, gateway)
    ensures AuthorizedAreHosted(ReceiveAll(progress, gateway, deliveries).0, gateway)
    ensures Answered(RunMissing) !in ReceiveAll(progress, gateway, deliveries).1
    decreases |deliveries|
  {
    if deliveries != [] {
      AuthorizedRunsAreFound(progress, gateway, deliveries[..|deliveries| - 1]);
    }
  }

  ghost predicate KeysAreUnique(rows: seq<SpanRow>) {
    forall i, j | 0 <= i < j < |rows| ::
      !(rows[i].target == rows[j].target
        && rows[i].span.traceId == rows[j].span.traceId && rows[i].span.spanId == rows[j].span.spanId)
  }

  /** All assigned spans of one trace belong to the same run. */
  ghost predicate TracesHaveOneOwner(rows: seq<SpanRow>) {
    forall i, j | 0 <= i < |rows| && 0 <= j < |rows| && rows[i].runId.Some? && rows[j].runId.Some?
      && rows[i].target == rows[j].target && rows[i].span.traceId == rows[j].span.traceId ::
      rows[i].runId == rows[j].runId
  }

  /** The spans counted for a run: those assigned to it while it accepted spans. */
  function SpansOf(rows: seq<SpanRow>, id: nat): nat {
    |Filter((row: SpanRow) => row.runId == Some(id) && !row.late, rows)|
  }

  ghost predicate SoundTables(tables: Tables, limit: nat) {
    && KeysAreUnique(tables.rows)
    && TracesHaveOneOwner(tables.rows)
    && forall id | id in tables.runs :: tables.runs[id].spanCount == SpansOf(tables.rows, id) <= limit
  }

  lemma KeysStayUnique(rows: seq<SpanRow>, gateway: Gateway, row: SpanRow)
    requires KeysAreUnique(rows) && row.target == gateway.target
    requires forall other | other in rows :: !SameKey(other, gateway, row.span)
    ensures KeysAreUnique(rows + [row])
  {
    assert forall i | 0 <= i < |rows| :: !SameKey(rows[i], gateway, row.span);
  }

  lemma OwnersStay(rows: seq<SpanRow>, gateway: Gateway, delivery: Delivery, row: SpanRow)
    requires TracesHaveOneOwner(rows)
    requires row.target == gateway.target && row.span == delivery.span && row.runId == delivery.runId
    requires row.runId.Some? ==> forall other | other in rows :: !OwnedByOther(other, gateway, delivery)
    ensures TracesHaveOneOwner(rows + [row])
  {
    assert row.runId.Some? ==> forall i | 0 <= i < |rows| :: !OwnedByOther(rows[i], gateway, delivery);
  }

  lemma SpansOfAppend(rows: seq<SpanRow>, row: SpanRow, id: nat)
    ensures SpansOf(rows + [row], id) == SpansOf(rows, id) + if row.runId == Some(id) && !row.late then 1 else 0
  {
    FilterConcat((row: SpanRow) => row.runId == Some(id) && !row.late, rows, [row]);
  }

  lemma InsertKeeps(tables: Tables, gateway: Gateway, delivery: Delivery)
    requires SoundTables(tables, gateway.maxSpans)
    ensures SoundTables(Insert(tables, gateway, delivery).0, gateway.maxSpans)
  {
    var (tables', outcome) := Insert(tables, gateway, delivery);
    if outcome == Unassigned || outcome == LateAfterFinalize || outcome == Inserted {
      var row := SpanRow(gateway.target, delivery.runId, delivery.span, outcome == LateAfterFinalize);
      KeysStayUnique(tables.rows, gateway, row);
      OwnersStay(tables.rows, gateway, delivery, row);
      forall id | id in tables'.runs ensures tables'.runs[id].spanCount == SpansOf(tables'.rows, id) <= gateway.maxSpans {
        SpansOfAppend(tables.rows, row, id);
      }
    }
  }

  /**
   * Whatever a batch holds, no span is stored twice, no trace is split between runs, and each run's span
   * count is the number of spans counted for it and within the limit.
   */
  lemma {:induction false} IngestKeepsTheTables(progress: Progress, gateway: Gateway, deliveries: seq<Delivery>)
    requires SoundTables(progress.tables, gateway.maxSpans)
    ensures SoundTables(ReceiveAll(progress, gateway, deliveries).0.tables, gateway.maxSpans)
    decreases |deliveries|
  {
    if deliveries != [] {
      var n := |deliveries| - 1;
      IngestKeepsTheTables(progress, gateway, deliveries[..n]);
      InsertKeeps(ReceiveAll(progress, gateway, deliveries[..n]).0.tables, gateway, deliveries[n]);
    }
  }

  // ---------------------------------------------------------------- redelivery

  /** The tables have grown: rows were added, no run came, went, changed its state or lost a span. */
  ghost predicate Grew(before: Tables, after: Tables) {
    && (forall row | row in before.rows :: row in after.rows)
    && before.runs.Keys == after.runs.Keys
    && forall id | id in before.runs ::
         && after.runs[id].target == before.runs[id].target
         && after.runs[id].state == before.runs[id].state
         && before.runs[id].spanCount <= after.runs[id].spanCount
  }

  /** The store has nothing left to take from this span: it is known, or it will go on being refused. */
  predicate Spent(tables: Tables, gateway: Gateway, delivery: Delivery) {
    || !delivery.valid
    || Insert(tables, gateway, delivery).0 == tables
    || (delivery.runId.Some? && !Authorizes(tables, gateway, delivery.runId.value))
  }

  lemma ReceivedIsSpent(progress: Progress, gateway: Gateway, delivery: Delivery)
    requires forall id | id in progress.authorized :: !progress.authorized[id] ==> !Authorizes(progress.tables, gateway, id)
    ensures var after := Receive(progress, gateway, delivery).0;
            && Grew(progress.tables, after.tables)
            && Spent(after.tables, gateway, delivery)
            && forall id | id in after.authorized :: !after.authorized[id] ==> !Authorizes(after.tables, gateway, id)
  {
    var after := Receive(progress, gateway, delivery).0;
    var row := SpanRow(gateway.target, delivery.runId, delivery.span, false);
    if after.tables != progress.tables {
      var stored := after.tables.rows[|progress.tables.rows|];
      assert stored in after.tables.rows && SameKey(stored, gateway, delivery.span);
    }
  }

  lemma SpentStays(before: Tables, after: Tables, gateway: Gateway, delivery: Delivery)
    requires Grew(before, after) && Spent(before, gateway, delivery)
    ensures Spent(after, gateway, delivery)
  {
  }

  lemma {:induction false} GrewAll(progress: Progress, gateway: Gateway, deliveries: seq<Delivery>)
    requires progress.authorized == map[]
    ensures var after := ReceiveAll(progress, gateway, deliveries).0;
            && Grew(progress.tables, after.tables)
            && (forall delivery | delivery in deliveries :: Spent(after.tables, gateway, delivery))
            && forall id | id in after.authorized :: !after.authorized[id] ==> !Authorizes(after.tables, gateway, id)
    decreases |deliveries|
  {
    if deliveries != [] {
      var n := |deliveries| - 1;
      GrewAll(progress, gateway, deliveries[..n]);
      var before := ReceiveAll(progress, gateway, deliveries[..n]).0;
      var after := Receive(before, gateway, deliveries[n]).0;
      ReceivedIsSpent(before, gateway, deliveries[n]);
      forall delivery | delivery in deliveries ensures Spent(after.tables, gateway, delivery) {
        if delivery in deliveries[..n] {
          SpentStays(before.tables, after.tables, gateway, delivery);
        } else {
          assert delivery == deliveries[n];
        }
      }
    }
  }

  lemma {:induction false} SpentBatchChangesNothing(progress: Progress, gateway: Gateway, deliveries: seq<Delivery>)
    requires forall delivery | delivery in deliveries :: Spent(progress.tables, gateway, delivery)
    requires forall id | id in progress.authorized :: progress.authorized[id] ==> Authorizes(progress.tables, gateway, id)
    ensures var after := ReceiveAll(progress, gateway, deliveries).0;
            && after.tables == progress.tables
            && forall id | id in after.authorized :: after.authorized[id] ==> Authorizes(after.tables, gateway, id)
    decreases |deliveries|
  {
    if deliveries != [] {
      SpentBatchChangesNothing(progress, gateway, deliveries[..|deliveries| - 1]);
      assert deliveries[|deliveries| - 1] in deliveries;
    }
  }

  /** Ingesting is idempotent: the same batch once more stores nothing and counts nothing, whatever was in it. */
  lemma IngestIsIdempotent(tables: Tables, gateway: Gateway, deliveries: seq<Delivery>)
    ensures var once := ReceiveAll(Started(tables), gateway, deliveries).0.tables;
            ReceiveAll(Started(once), gateway, deliveries).0.tables == once
  {
    GrewAll(Started(tables), gateway, deliveries);
    SpentBatchChangesNothing(Started(ReceiveAll(Started(tables), gateway, deliveries).0.tables), gateway, deliveries);
  }

  /** A span refused as late is stored all the same, and so is accepted, as a duplicate, when it is sent again. */
  lemma LateSpanReturnsAsDuplicate(tables: Tables, gateway: Gateway, delivery: Delivery)
    ensures var (after, outcome) := Insert(tables, gateway, delivery);
            (outcome in {LateAfterFinalize, Inserted, Unassigned, Duplicate})
              == (Insert(after, gateway, delivery) == (after, Duplicate))
  {
    var (after, outcome) := Insert(tables, gateway, delivery);
    if outcome == LateAfterFinalize || outcome == Inserted || outcome == Unassigned {
      var row := after.rows[|tables.rows|];
      assert row in after.rows && SameKey(row, gateway, delivery.span);
    }
  }
}
