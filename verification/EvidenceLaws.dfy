/**
 * What the evidence of a run is made of: the events its in-time spans normalize to, how the run was
 * completed, and which defects count against its quality. And which spans those are.
 */
module EvidenceLaws {
  import opened Wrappers
  import opened Evidence
  import opened RunDomain
  import opened RunStore
  import opened RunProtocol
  import opened RunInvariant
  import opened RunSafety
  import opened RunStamps

  // ---------------------------------------------------------------- contents

  /** A bundle is only ever stored for a run that was completed, by somebody or by a timeout. */
  lemma EvidenceHasAReason(env: Env, start: World, schedule: seq<Action>)
    requires Initial(start) && Execute(env, start, schedule).store.bundle.Some?
    ensures Execute(env, start, schedule).store.run.completionReason.Some?
    ensures Execute(env, start, schedule).store.run.pins == start.store.run.pins
  {
    ScheduleKeeps(env, start, schedule);
    InitialKeeps(env, start);
    ContinuationEvolves(env, start, schedule);
    FinalizingIsFrozen(env, Execute(env, start, schedule).store);
  }

  /**
   * Whatever raced, crashed or was recovered: the stored evidence holds the events and trace ids that the
   * assigned spans normalize to, all of them, and says how the run was completed.
   */
  lemma EvidenceHoldsTheSpans(env: Env, start: World, schedule: seq<Action>)
    requires Initial(start) && Execute(env, start, schedule).store.bundle.Some?
    ensures var store := Execute(env, start, schedule).store;
            var normalized := env.normalize(start.store.run.pins, Assigned(store.spans));
            && store.bundle.value.events == normalized.events
            && store.bundle.value.traceIds == normalized.traceIds
            && store.bundle.value.completionReason == store.run.completionReason
            && store.bundle.value.terminalState == store.run.terminalState
            && store.bundle.value.finalizedAt.Some?
  {
    EvidenceHasAReason(env, start, schedule);
    ScheduleKeeps(env, start, schedule);
    BundleIsDated(env, start, schedule);
  }

  /** A step stores no bundle without a time. */
  lemma {:induction false} BundleIsDated(env: Env, start: World, schedule: seq<Action>)
    requires Initial(start)
    ensures var bundle := Execute(env, start, schedule).store.bundle; bundle.Some? ==> bundle.value.finalizedAt.Some?
    decreases |schedule|
  {
    if schedule != [] {
      var n := |schedule| - 1;
      BundleIsDated(env, start, schedule[..n]);
      var world, action := Execute(env, start, schedule[..n]), schedule[n];
      if action.Step? && action.pid in world.procs {
        StepDatesTheBundle(env, world.store, world.procs[action.pid], action.input);
      }
    }
  }

  lemma StepDatesTheBundle(env: Env, store: Store, proc: Proc, input: Input)
    requires store.bundle.Some? ==> store.bundle.value.finalizedAt.Some?
    ensures var bundle := Advance(env, store, proc, input).0.bundle; bundle.Some? ==> bundle.value.finalizedAt.Some?
  {
  }

  /**
   * The trace is insufficient exactly if a timeout completed the run or a blocking defect was found, and
   * complete exactly if no timeout did and no defect was found; a missing terminal event is no defect.
   */
  lemma EvidenceQualityIff(env: Env, start: World, schedule: seq<Action>)
    requires Initial(start) && Execute(env, start, schedule).store.bundle.Some?
    ensures Execute(env, start, schedule).store.run.completionReason.Some?
    ensures var store := Execute(env, start, schedule).store;
            var (reason, quality) := (store.run.completionReason.value, store.bundle.value.traceQuality);
            var found := env.normalize(start.store.run.pins, Assigned(store.spans)).defects;
            var timedOut := reason == IdleTimeout || reason == MaxDuration;
            && (quality == Insufficient <==>
                  timedOut || exists defect | defect in found :: defect.blocking && defect.code != "missing_terminal")
            && (quality == Complete <==> !timedOut && forall defect | defect in found :: defect.code == "missing_terminal")
  {
    EvidenceHasAReason(env, start, schedule);
    ScheduleKeeps(env, start, schedule);
    var store := Execute(env, start, schedule).store;
    var found := env.normalize(store.run.pins, Assigned(store.spans)).defects;
    QualityIff(store.run.completionReason.value, found);
  }

  lemma QualityIff(reason: CompletionReason, found: set<TraceDefect>)
    ensures var (timedOut, quality) :=
              (reason == IdleTimeout || reason == MaxDuration, QualityFromDefects(EffectiveDefects(Some(reason), found)));
            && (quality == Insufficient <==>
                  timedOut || exists defect | defect in found :: defect.blocking && defect.code != "missing_terminal")
            && (quality == Complete <==> !timedOut && forall defect | defect in found :: defect.code == "missing_terminal")
  {
    var counted := EffectiveDefects(Some(reason), found);
    if reason == IdleTimeout || reason == MaxDuration {
      assert FORCED_TIMEOUT in counted;
    } else {
      assert forall defect :: defect in counted <==> defect in found && defect.code != "missing_terminal";
      assert counted == {} <==> forall defect | defect in found :: defect.code == "missing_terminal";
    }
  }

  /** A defect that the way a run was completed neither adds nor forgives. */
  predicate IsLasting(defect: TraceDefect) {
    defect.code != "missing_terminal" && defect.code != "forced_timeout"
  }

  /**
   * What the digest tells apart: everything the bundle says but when it was sealed, what the run was pinned to,
   * and every defect found in its spans.
   */
  lemma DigestCoversAllButTheTime(
    env: Env, one: World, first: seq<Action>, other: World, second: seq<Action>)
    requires Initial(one) && Execute(env, one, first).store.bundle.Some?
    requires Initial(other) && Execute(env, other, second).store.bundle.Some?
    requires var (a, b) := (Execute(env, one, first).store, Execute(env, other, second).store);
             a.bundle.value.evidenceSha256 == b.bundle.value.evidenceSha256
    ensures var (a, b) := (Execute(env, one, first).store, Execute(env, other, second).store);
            && a.bundle.value == b.bundle.value.(finalizedAt := a.bundle.value.finalizedAt)
            && a.run.pins.targetVersion == b.run.pins.targetVersion
            && a.run.pins.policyContent == b.run.pins.policyContent
            && forall defect | IsLasting(defect) ::
                 defect in env.normalize(a.run.pins, Assigned(a.spans)).defects
                 <==> defect in env.normalize(b.run.pins, Assigned(b.spans)).defects
  {
    EvidenceHasAReason(env, one, first);
    EvidenceHasAReason(env, other, second);
    ScheduleKeeps(env, one, first);
    ScheduleKeeps(env, other, second);
    var a, b := Execute(env, one, first).store, Execute(env, other, second).store;
    LastingDefectsCount(a.run.completionReason, env.normalize(a.run.pins, Assigned(a.spans)).defects);
    LastingDefectsCount(b.run.completionReason, env.normalize(b.run.pins, Assigned(b.spans)).defects);
  }

  lemma LastingDefectsCount(reason: Option<CompletionReason>, found: set<TraceDefect>)
    ensures forall defect | IsLasting(defect) :: defect in EffectiveDefects(reason, found) <==> defect in found
  {
  }

  // ---------------------------------------------------------------- which spans they are

  predicate SharesKey(a: Span, b: Span) {
    a.traceId == b.traceId && a.spanId == b.spanId
  }

  /** At position `k` the span arrives as one the store does not know. */
  predicate ArrivesNewAt(env: Env, start: World, schedule: seq<Action>, k: nat, span: Span) {
    && k < |schedule| && schedule[k].Receive? && schedule[k].span == span
    && forall ingested | ingested in RunStamps.At(env, start, schedule, k).store.spans :: !SharesKey(ingested.span, span)
  }

  /** In time and with room: the run was not yet claimed for finalization. */
  predicate CountedAt(env: Env, start: World, schedule: seq<Action>, k: nat, span: Span) {
    && ArrivesNewAt(env, start, schedule, k, span)
    && Rank(RunStamps.At(env, start, schedule, k).store.run.state) < Rank(Finalizing)
    && RunStamps.At(env, start, schedule, k).store.run.spanCount < schedule[k].maxSpans
  }

  predicate LateAt(env: Env, start: World, schedule: seq<Action>, k: nat, span: Span) {
    && ArrivesNewAt(env, start, schedule, k, span)
    && Rank(RunStamps.At(env, start, schedule, k).store.run.state) >= Rank(Finalizing)
  }

  ghost predicate CountedBy(env: Env, start: World, schedule: seq<Action>, span: Span) {
    exists k: nat :: CountedAt(env, start, schedule, k, span)
  }

  ghost predicate LateBy(env: Env, start: World, schedule: seq<Action>, span: Span) {
    exists k: nat :: LateAt(env, start, schedule, k, span)
  }

  lemma {:induction false} AssignedMembers(spans: seq<Ingested>)
    ensures forall span :: span in Assigned(spans) <==> Ingested(span, false) in spans
  {
    if spans != [] {
      AssignedMembers(spans[1..]);
      assert spans == [spans[0]] + spans[1..];
    }
  }

  lemma PrefixArrives(env: Env, start: World, schedule: seq<Action>, k: nat, span: Span)
    requires k < |schedule| - 1
    ensures var shorter := schedule[..|schedule| - 1];
            && (CountedAt(env, start, shorter, k, span) <==> CountedAt(env, start, schedule, k, span))
            && (LateAt(env, start, shorter, k, span) <==> LateAt(env, start, schedule, k, span))
  {
    assert schedule[..|schedule| - 1][..k] == schedule[..k];
  }

  lemma CountedByLast(env: Env, start: World, schedule: seq<Action>, span: Span)
    requires schedule != []
    ensures var n := |schedule| - 1;
            CountedBy(env, start, schedule, span) <==>
              CountedBy(env, start, schedule[..n], span) || CountedAt(env, start, schedule, n, span)
  {
    var n := |schedule| - 1;
    if CountedBy(env, start, schedule[..n], span) {
      var k: nat :| CountedAt(env, start, schedule[..n], k, span);
      PrefixArrives(env, start, schedule, k, span);
    } else if CountedBy(env, start, schedule, span) {
      var k: nat :| CountedAt(env, start, schedule, k, span);
      if k < n {
        PrefixArrives(env, start, schedule, k, span);
      }
    }
  }

  lemma LateByLast(env: Env, start: World, schedule: seq<Action>, span: Span)
    requires schedule != []
    ensures var n := |schedule| - 1;
            LateBy(env, start, schedule, span) <==>
              LateBy(env, start, schedule[..n], span) || LateAt(env, start, schedule, n, span)
  {
    var n := |schedule| - 1;
    if LateBy(env, start, schedule[..n], span) {
      var k: nat :| LateAt(env, start, schedule[..n], k, span);
      PrefixArrives(env, start, schedule, k, span);
    } else if LateBy(env, start, schedule, span) {
      var k: nat :| LateAt(env, start, schedule, k, span);
      if k < n {
        PrefixArrives(env, start, schedule, k, span);
      }
    }
  }

  /** What one action adds to the stored spans. */
  lemma ActionStores(env: Env, start: World, schedule: seq<Action>, span: Span)
    requires schedule != []
    ensures var (n, after) := (|schedule| - 1, Execute(env, start, schedule).store.spans);
            var before := RunStamps.At(env, start, schedule, n).store.spans;
            && (Ingested(span, false) in after <==>
                  Ingested(span, false) in before || CountedAt(env, start, schedule, n, span))
            && (Ingested(span, true) in after <==> Ingested(span, true) in before || LateAt(env, start, schedule, n, span))
  {
    var n := |schedule| - 1;
    var world, action := RunStamps.At(env, start, schedule, n), schedule[n];
    match action
    case Receive(received, receivedAt, maxSpans) =>
      ReceiveStores(world.store, received, receivedAt, maxSpans);
    case Step(pid, input) =>
      if pid in world.procs {
        StepKeepsSpans(env, world.store, world.procs[pid], input);
      }
    case _ =>
  }

  lemma StepKeepsSpans(env: Env, store: Store, proc: Proc, input: Input)
    ensures Advance(env, store, proc, input).0.spans == store.spans
  {
  }

  lemma ReceiveStores(store: Store, span: Span, receivedAt: Time, maxSpans: nat)
    ensures var spans := InsertSpan(store, span, receivedAt, maxSpans).0.spans;
            if exists ingested | ingested in store.spans :: SharesKey(ingested.span, span) then spans == store.spans
            else if Rank(store.run.state) >= Rank(Finalizing) then spans == store.spans + [Ingested(span, true)]
            else if store.run.spanCount < maxSpans then spans == store.spans + [Ingested(span, false)]
            else spans == store.spans
  {
  }

  /**
   * The spans a run's evidence is sealed from are exactly those that arrived, under a new key, before the run
   * was claimed for finalization and while it had room; what arrives later is kept apart as late.
   */
  lemma {:induction false} EvidenceSpansIff(env: Env, start: World, schedule: seq<Action>, span: Span)
    requires Initial(start)
    ensures span in Assigned(Execute(env, start, schedule).store.spans) <==> CountedBy(env, start, schedule, span)
    ensures Ingested(span, true) in Execute(env, start, schedule).store.spans <==> LateBy(env, start, schedule, span)
    decreases |schedule|
  {
    AssignedMembers(Execute(env, start, schedule).store.spans);
    if schedule != [] {
      var n := |schedule| - 1;
      EvidenceSpansIff(env, start, schedule[..n], span);
      AssignedMembers(Execute(env, start, schedule[..n]).store.spans);
      CountedByLast(env, start, schedule, span);
      LateByLast(env, start, schedule, span);
      ActionStores(env, start, schedule, span);
    }
  }
}
