/** Batches the validator accepts are what attempts leave. */
module AcceptedBatches {
  import opened Wrappers
  import opened Ordering
  import opened Sampling
  import opened Measurement
  import opened CorrectnessGate
  import opened BatchProtocol
  import opened ProtocolAgreement
  import opened CompleteEvidence
  import opened Claims

  // ----- Lists and the merged list -----

  lemma GatheredHas(warmups: PerLane, samples: PerLane, lane: Lane, s: Sample)
    ensures Observed(lane, s) in Gathered(warmups, samples) <==> s in warmups.Of(lane) || s in samples.Of(lane)
  {
    var own := OfLane(warmups, samples, lane);
    if s in warmups.Of(lane) || s in samples.Of(lane) {
      var both := warmups.Of(lane) + samples.Of(lane);
      assert s in both;
      var i :| 0 <= i < |both| && both[i] == s;
      assert own[i] == Observed(lane, s);
    }
    if Observed(lane, s) in own {
      var i :| 0 <= i < |own| && own[i] == Observed(lane, s);
      assert s in warmups.Of(lane) + samples.Of(lane);
    }
    forall other: Lane | other != lane
      ensures Observed(lane, s) !in OfLane(warmups, samples, other)
    {
    }
  }

  lemma MergedHas(r: WorkloadRecord, lane: Lane, s: Sample)
    ensures Observed(lane, s) in Merged(r) <==> s in r.warmups.Of(lane) || s in r.samples.Of(lane)
  {
    GatheredHas(r.warmups, r.samples, lane, s);
    SameElements(Merged(r), Gathered(r.warmups, r.samples), Observed(lane, s));
  }

  lemma WithinIffMerged(r: WorkloadRecord, low: int, high: int)
    ensures SamplesWithin(r, low, high) <==> forall x :: x in Merged(r) ==> Within(x.sample, low, high)
  {
    forall lane: Lane, s: Sample
      ensures Observed(lane, s) in Merged(r) <==> s in r.warmups.Of(lane) || s in r.samples.Of(lane)
    {
      MergedHas(r, lane, s);
    }
    assert forall x: Observed :: x == Observed(x.lane, x.sample);
  }

  /** The two records differ at most in the order within their lists, and completed ones in nothing. */
  ghost predicate SameRecord(a: WorkloadRecord, b: WorkloadRecord) {
    && Merged(a) == Merged(b)
    && a == b.(warmups := a.warmups, samples := a.samples)
    && (a.status == CompletedCollection ==> a == b)
  }

  ghost predicate SameRecords(ws: seq<WorkloadRecord>, vs: seq<WorkloadRecord>) {
    |ws| == |vs| && forall w {:trigger SameRecord(ws[w], vs[w])} :: 0 <= w < |ws| ==> SameRecord(ws[w], vs[w])
  }

  // ----- One workload -----

  /** `run` is a fair and presentable run that leaves this record. */
  ghost predicate Leaves(
    schedule: seq<Row>, context: Context, run: WorkloadRun, r: WorkloadRecord, low: int, high: int)
    requires IsSchedule(schedule)
  {
    && FairWorkload(schedule, run, low, high) && Presentable(run)
    && StatusOfRun(run) == r.status
    && SameRecord(r, RecordOf(r.id, schedule, context, run))
  }

  lemma TakenEvidenceIsWithin(
    schedule: seq<Row>, context: Context, r: WorkloadRecord, outcomes: seq<Outcome>, n: nat, low: int, high: int)
    requires IsSchedule(schedule) && n <= EventCount(schedule) && n <= |outcomes|
    requires Merged(r) == Taken(schedule, context, outcomes, n) && SamplesWithin(r, low, high)
    ensures OutcomesWithin(outcomes[..n], low, high)
  {
    var taken := Taken(schedule, context, outcomes, n);
    TakenAt(schedule, context, outcomes, n);
    WithinIffMerged(r, low, high);
    forall i | 0 <= i < n
      ensures low <= outcomes[i].evidence.startedAt <= outcomes[i].evidence.finishedAt <= high
    {
      assert taken[i] in Merged(r);
    }
  }

  lemma MergedAfter(id: string, schedule: seq<Row>, context: Context, outcomes: seq<Outcome>, n: nat)
    requires IsSchedule(schedule) && n <= EventCount(schedule) && n <= |outcomes|
    ensures Merged(RecordAfter(id, schedule, context, outcomes, n)) == Taken(schedule, context, outcomes, n)
  {
    ListsAreSpread(schedule, context, outcomes, n);
    MergedIsTaken(schedule, context, outcomes, n);
  }

  lemma CompleteRunLeaves(
    schedule: seq<Row>, context: Context, r: WorkloadRecord, outcomes: seq<Outcome>, low: int, high: int)
    requires IsSchedule(schedule) && |outcomes| == EventCount(schedule) && AllSucceed(outcomes)
    requires r == RecordAfter(r.id, schedule, context, outcomes, |outcomes|) && SamplesWithin(r, low, high)
    ensures Leaves(schedule, context, Resolved(outcomes), r, low, high)
  {
    MergedAfter(r.id, schedule, context, outcomes, |outcomes|);
    TakenEvidenceIsWithin(schedule, context, r, outcomes, |outcomes|, low, high);
    assert outcomes[..|outcomes|] == outcomes;
    CompleteRunIsFair(schedule, outcomes, low, high);
    CompleteRunStops(r.id, schedule, context, outcomes, Resolved(outcomes));
  }

  lemma CompleteRunIsFair(schedule: seq<Row>, outcomes: seq<Outcome>, low: int, high: int)
    requires |outcomes| == EventCount(schedule) && AllSucceed(outcomes) && OutcomesWithin(outcomes, low, high)
    ensures FairWorkload(schedule, Resolved(outcomes), low, high)
  {
  }

  lemma CompleteRunStops(
    id: string, schedule: seq<Row>, context: Context, outcomes: seq<Outcome>, run: WorkloadRun)
    requires IsSchedule(schedule) && |outcomes| == EventCount(schedule) && AllSucceed(outcomes)
    requires run == Resolved(outcomes)
    ensures Presentable(run) && StatusOfRun(run) == CompletedCollection
    ensures RecordOf(id, schedule, context, run) == RecordAfter(id, schedule, context, outcomes, |outcomes|)
    ensures RecordOf(id, schedule, context, run).status == CompletedCollection
  {
    AttemptedIsUnique(outcomes, |outcomes|);
  }

  lemma MeasuredIsLeft(schedule: seq<Row>, context: Context, r: WorkloadRecord, low: int, high: int)
    returns (run: WorkloadRun)
    requires IsSchedule(schedule) && ValidMeasured(schedule, context, r) && MeasuredSchema(r)
    requires SamplesWithin(r, low, high)
    ensures Leaves(schedule, context, run, r, low, high)
  {
    MeasuredIffLeftByARun(schedule, context, r);
    var outcomes: seq<Outcome> :|
      && |outcomes| == EventCount(schedule) && AllSucceed(outcomes)
      && r == RecordAfter(r.id, schedule, context, outcomes, |outcomes|);
    CompleteRunLeaves(schedule, context, r, outcomes, low, high);
    run := Resolved(outcomes);
  }

  /** What follows the failed event is made up, at the time of that event. */
  lemma FailedRunIsFair(schedule: seq<Row>, outcomes: seq<Outcome>, n: nat, low: int, high: int)
    requires |outcomes| == EventCount(schedule) && 0 < n <= |outcomes| && OutcomesWithin(outcomes[..n], low, high)
    requires forall i :: 0 <= i < n - 1 ==> outcomes[i].Success?
    requires !outcomes[n - 1].Success? && StatusOf(outcomes[n - 1]).message != ""
    requires forall i :: n <= i < |outcomes| ==> outcomes[i] == Success(outcomes[n - 1].evidence)
    ensures FairWorkload(schedule, Resolved(outcomes), low, high)
  {
    forall i | 0 <= i < |outcomes|
      ensures low <= outcomes[i].evidence.startedAt <= outcomes[i].evidence.finishedAt <= high
    {
      var j := if i < n then i else n - 1;
      assert outcomes[..n][j] == outcomes[j];
    }
  }

  lemma FailedRunStops(
    id: string, schedule: seq<Row>, context: Context, outcomes: seq<Outcome>, n: nat, run: WorkloadRun)
    requires IsSchedule(schedule) && |outcomes| == EventCount(schedule) && n > 0 && StopsAt(schedule, outcomes, n)
    requires !outcomes[n - 1].Success? && AllShown(outcomes, n) && run == Resolved(outcomes)
    ensures Presentable(run) && StatusOfRun(run) == FailedCollection
    ensures RecordOf(id, schedule, context, run) == RecordAfter(id, schedule, context, outcomes, n)
  {
    AttemptedIsUnique(outcomes, n);
    assert !LanesPass(outcomes);
  }

  lemma FailedIsLeft(schedule: seq<Row>, context: Context, r: WorkloadRecord, low: int, high: int)
    returns (run: WorkloadRun)
    requires IsSchedule(schedule) && FailedLast(schedule, context, r) && SamplesWithin(r, low, high)
    ensures Leaves(schedule, context, run, r, low, high)
  {
    var outcomes := AcceptedEvidenceIsARun(schedule, context, r);
    var n := |Merged(r)|;
    var left := RecordAfter(r.id, schedule, context, outcomes, n);
    assert left.status == FailedCollection && left.failureReason == r.failureReason;
    run := Resolved(outcomes);
    TakenEvidenceIsWithin(schedule, context, r, outcomes, n, low, high);
    FailedRunIsFair(schedule, outcomes, n, low, high);
    FailedRunStops(r.id, schedule, context, outcomes, n, run);
  }

  // ----- The workloads of a batch -----

  ghost predicate EachAt<T>(s: seq<T>, p: (T, nat) -> bool) {
    forall k: nat {:trigger p(s[k], k)} :: k < |s| ==> p(s[k], k)
  }

  lemma EachAtAppends<T>(s: seq<T>, x: T, p: (T, nat) -> bool)
    requires EachAt(s, p) && p(x, |s|)
    ensures EachAt(s + [x], p)
  {
    forall k: nat | k < |s + [x]|
      ensures p((s + [x])[k], k)
    {
      assert k < |s| ==> p(s[k], k);
    }
  }

  /** A run that goes well, for a workload that is never reached. */
  function SteadyRun(schedule: seq<Row>, at: int): WorkloadRun {
    Resolved(seq(EventCount(schedule), _ => Success(Evidence(0, at, at, true, true))))
  }

  /** Run `w` leaves workload `w`, or nothing is asked of it. */
  ghost predicate LeavesAt(
    schedule: seq<Row>, context: Context, run: WorkloadRun, ws: seq<WorkloadRecord>, w: nat, low: int, high: int)
    requires IsSchedule(schedule)
  {
    if w < |ws| then Leaves(schedule, context, run, ws[w], low, high) else run == SteadyRun(schedule, low)
  }

  ghost predicate RunsLeave(
    schedule: seq<Row>, context: Context, runs: seq<WorkloadRun>, ws: seq<WorkloadRecord>, low: int, high: int)
    requires IsSchedule(schedule)
  {
    EachAt(
      runs, (run: WorkloadRun, w: nat) => IsSchedule(schedule) && LeavesAt(schedule, context, run, ws, w, low, high))
  }

  lemma RunLeaves(
    schedule: seq<Row>, context: Context, runs: seq<WorkloadRun>, ws: seq<WorkloadRecord>, low: int, high: int, w: nat)
    requires IsSchedule(schedule) && RunsLeave(schedule, context, runs, ws, low, high) && w < |runs|
    ensures LeavesAt(schedule, context, runs[w], ws, w, low, high)
  {
    var p := (run: WorkloadRun, w: nat) => IsSchedule(schedule) && LeavesAt(schedule, context, run, ws, w, low, high);
    assert p(runs[w], w);
  }

  /** The workload completed, or it is the failed tail. */
  ghost predicate RetainedAt(
    schedule: seq<Row>, context: Context, ws: seq<WorkloadRecord>, w: nat, low: int, high: int)
    requires IsSchedule(schedule) && w < |ws|
  {
    && SamplesWithin(ws[w], low, high)
    && ((ValidMeasured(schedule, context, ws[w]) && MeasuredSchema(ws[w]))
        || (w == |ws| - 1 && FailedLast(schedule, context, ws[w])))
  }

  ghost predicate Retained(schedule: seq<Row>, context: Context, ws: seq<WorkloadRecord>, low: int, high: int)
    requires IsSchedule(schedule)
  {
    forall w {:trigger RetainedAt(schedule, context, ws, w, low, high)} :: 0 <= w < |ws| ==>
      RetainedAt(schedule, context, ws, w, low, high)
  }

  lemma SomeRunLeaves(schedule: seq<Row>, context: Context, ws: seq<WorkloadRecord>, w: nat, low: int, high: int)
    returns (run: WorkloadRun)
    requires IsSchedule(schedule) && (w < |ws| ==> RetainedAt(schedule, context, ws, w, low, high))
    ensures LeavesAt(schedule, context, run, ws, w, low, high)
  {
    run := SteadyRun(schedule, low);
    if w < |ws| {
      if FailedLast(schedule, context, ws[w]) {
        run := FailedIsLeft(schedule, context, ws[w], low, high);
      } else {
        run := MeasuredIsLeft(schedule, context, ws[w], low, high);
      }
    }
  }

  lemma {:induction false} SomeRunsLeave(
    schedule: seq<Row>, context: Context, ws: seq<WorkloadRecord>, low: int, high: int, n: nat)
    returns (runs: seq<WorkloadRun>)
    requires IsSchedule(schedule) && Retained(schedule, context, ws, low, high)
    ensures |runs| == n && RunsLeave(schedule, context, runs, ws, low, high)
    decreases n
  {
    runs := [];
    if n > 0 {
      var before := SomeRunsLeave(schedule, context, ws, low, high, n - 1);
      var last := SomeRunLeaves(schedule, context, ws, n - 1, low, high);
      runs := before + [last];
      EachAtAppends(
        before, last,
        (run: WorkloadRun, w: nat) => IsSchedule(schedule) && LeavesAt(schedule, context, run, ws, w, low, high));
    }
  }

  lemma SteadyRunIsFair(schedule: seq<Row>, low: int, high: int)
    requires low <= high
    ensures FairWorkload(schedule, SteadyRun(schedule, low), low, high)
  {
  }

  lemma RunsAreFair(
    schedule: seq<Row>, context: Context, runs: seq<WorkloadRun>, ws: seq<WorkloadRecord>, low: int, high: int)
    requires IsSchedule(schedule) && low <= high && RunsLeave(schedule, context, runs, ws, low, high)
    ensures RunsShaped(schedule, runs) && FairRuns(schedule, runs, low, high)
  {
    SteadyRunIsFair(schedule, low, high);
    forall w | 0 <= w < |runs|
      ensures RunShaped(schedule, runs[w]) && FairWorkload(schedule, runs[w], low, high)
    {
      RunLeaves(schedule, context, runs, ws, low, high, w);
    }
  }

  /** The workloads end because all were measured, or one failed. */
  ghost predicate EndsProperly(ids: seq<string>, ws: seq<WorkloadRecord>) {
    && 0 < |ws| <= |ids|
    && (forall w :: 0 <= w < |ws| ==> ws[w].id == ids[w])
    && AllComplete(ws, |ws| - 1)
    && (|ws| < |ids| ==> ws[|ws| - 1].status != CompletedCollection)
  }

  lemma RunsLeaveRecords(
    ids: seq<string>, schedule: seq<Row>, context: Context, runs: seq<WorkloadRun>, ws: seq<WorkloadRecord>,
    low: int, high: int, w: nat)
    requires IsSchedule(schedule) && |runs| == |ids| && RunsShaped(schedule, runs)
    requires RunsLeave(schedule, context, runs, ws, low, high) && EndsProperly(ids, ws) && w < |ws|
    ensures SameRecord(ws[w], Records(ids, schedule, context, runs)[w])
  {
    RunLeaves(schedule, context, runs, ws, low, high, w);
  }

  lemma RunsPresent(
    schedule: seq<Row>, context: Context, runs: seq<WorkloadRun>, ws: seq<WorkloadRecord>, low: int, high: int, w: nat)
    requires IsSchedule(schedule) && RunsLeave(schedule, context, runs, ws, low, high) && w < |ws| <= |runs|
    ensures StatusOfRun(runs[w]) == ws[w].status && Presentable(runs[w])
  {
    RunLeaves(schedule, context, runs, ws, low, high, w);
  }

  lemma SameStatus(a: WorkloadRecord, b: WorkloadRecord)
    requires SameRecord(a, b)
    ensures a.status == b.status && a.failureReason == b.failureReason && a.id == b.id
  {
  }

  lemma CountOfSame(ids: seq<string>, ws: seq<WorkloadRecord>, records: seq<WorkloadRecord>)
    requires EndsProperly(ids, ws) && |records| == |ids|
    requires forall w :: 0 <= w < |ws| ==> records[w].status == ws[w].status
    ensures |Collected(records)| == |ws| && forall w :: 0 <= w < |ws| ==> Collected(records)[w] == records[w]
  {
    MeasuredCountIsUnique(records, |ws|);
  }

  /** Records that are those of the workloads are collected as far as those go. */
  lemma SameAreCollected(ids: seq<string>, ws: seq<WorkloadRecord>, records: seq<WorkloadRecord>)
    requires EndsProperly(ids, ws) && |records| == |ids|
    requires forall w :: 0 <= w < |ws| ==> SameRecord(ws[w], records[w])
    ensures SameRecords(ws, Collected(records))
  {
    forall w | 0 <= w < |ws|
      ensures records[w].status == ws[w].status
    {
      SameStatus(ws[w], records[w]);
    }
    CountOfSame(ids, ws, records);
  }

  /** What is collected of these runs are the workloads themselves. */
  lemma RunsLeaveWorkloads(
    ids: seq<string>, schedule: seq<Row>, context: Context, runs: seq<WorkloadRun>, ws: seq<WorkloadRecord>,
    low: int, high: int)
    requires IsSchedule(schedule) && |runs| == |ids| && RunsShaped(schedule, runs)
    requires RunsLeave(schedule, context, runs, ws, low, high) && EndsProperly(ids, ws)
    ensures SameRecords(ws, Collected(Records(ids, schedule, context, runs)))
  {
    var records := Records(ids, schedule, context, runs);
    forall w | 0 <= w < |ws|
      ensures SameRecord(ws[w], records[w])
    {
      RunsLeaveRecords(ids, schedule, context, runs, ws, low, high, w);
    }
    SameAreCollected(ids, ws, records);
  }

  lemma NothingReachedBehind(runs: seq<WorkloadRun>, last: nat, w: nat)
    requires last < w <= |runs| && StatusOfRun(runs[last]) != CompletedCollection
    ensures !Reached(runs, w)
  {
    assert !(runs[last].Resolved? && LanesPass(runs[last].outcomes));
  }

  lemma OnlyFirstAreReached(runs: seq<WorkloadRun>, n: nat)
    requires 0 < n <= |runs| && PresentableUpTo(runs, n)
    requires n < |runs| ==> StatusOfRun(runs[n - 1]) != CompletedCollection
    ensures AllPresentable(runs)
  {
    forall w | 0 <= w < |runs|
      ensures Reached(runs, w) ==> Presentable(runs[w])
    {
      if w >= n {
        NothingReachedBehind(runs, n - 1, w);
      }
    }
  }

  /** No other workload is reached than those retained. */
  lemma OnlyRetainedAreReached(
    ids: seq<string>, schedule: seq<Row>, context: Context, runs: seq<WorkloadRun>, ws: seq<WorkloadRecord>,
    low: int, high: int)
    requires IsSchedule(schedule) && |runs| == |ids|
    requires RunsLeave(schedule, context, runs, ws, low, high) && EndsProperly(ids, ws)
    ensures AllPresentable(runs)
  {
    forall w | 0 <= w < |ws|
      ensures Presentable(runs[w]) && StatusOfRun(runs[w]) == ws[w].status
    {
      RunsPresent(schedule, context, runs, ws, low, high, w);
    }
    OnlyFirstAreReached(runs, |ws|);
  }

  // ----- The batch -----

  /** The batches differ at most in the order within the lists of a failed workload. */
  ghost predicate SameBatch(batch: Batch, left: Batch) {
    SameRecords(batch.workloads, left.workloads) && left == batch.(workloads := left.workloads)
  }

  /** A fair attempt that is acceptable, and the batch is what it leaves. */
  ghost predicate LeavesBatch(
    rules: Rules, buildMode: string, now: int, attempt: Attempt, batch: Batch, attemptIndex: nat, completed: nat)
    requires WellFormedRules(rules)
  {
    && Fair(rules, now, attempt) && Acceptable(attempt)
    && SameBatch(batch, BatchFor(rules, buildMode, completed + 1, attemptIndex, attempt))
  }

  ghost predicate LeftByAnAttempt(
    rules: Rules, buildMode: string, now: int, batch: Batch, attemptIndex: nat, completed: nat)
    requires WellFormedRules(rules)
  {
    exists attempt :: LeavesBatch(rules, buildMode, now, attempt, batch, attemptIndex, completed)
  }

  /** A completed prefix, or all workloads, or a completed prefix and a failed tail, with the two checks left open. */
  ghost predicate Prefixed(
    ids: seq<string>, ws: seq<WorkloadRecord>, measured: WorkloadRecord -> bool, failed: WorkloadRecord -> bool)
  {
    && |ws| <= |ids|
    && (forall w :: 0 <= w < |ws| ==> ws[w].id == ids[w])
    && if AllMeasured(ids, ws) then forall w :: 0 <= w < |ws| ==> measured(ws[w])
       else ws != [] ==>
         && AllComplete(ws, |ws| - 1)
         && (forall w :: 0 <= w < |ws| - 1 ==> measured(ws[w]))
         && ws[|ws| - 1].status == FailedCollection && failed(ws[|ws| - 1])
  }

  ghost predicate AllMeasured(ids: seq<string>, ws: seq<WorkloadRecord>) {
    |ws| == |ids| && AllComplete(ws, |ws|)
  }

  ghost function MeasuredIn(schedule: seq<Row>, context: Context): WorkloadRecord -> bool
    requires IsSchedule(schedule)
  {
    r => IsSchedule(schedule) && ValidMeasured(schedule, context, r)
  }

  ghost function FailedIn(schedule: seq<Row>, context: Context): WorkloadRecord -> bool
    requires IsSchedule(schedule)
  {
    r => IsSchedule(schedule) && ValidPartial(schedule, context, r)
  }

  ghost predicate RightStability(rules: Rules, batch: Batch) {
    batch.stability == if CompleteRaw(rules, batch.workloads) then Some(rules.stability(batch.workloads)) else None
  }

  lemma ValidIsPrefixed(rules: Rules, context: Context, batch: Batch)
    requires WellFormedRules(rules)
    ensures ValidWorkloads(rules, context, batch) <==>
      && RightStability(rules, batch)
      && Prefixed(
        rules.workloadIds, batch.workloads, MeasuredIn(rules.schedule, context), FailedIn(rules.schedule, context))
  {
    var ws := batch.workloads;
    assert CompleteRaw(rules, ws) <==> AllMeasured(rules.workloadIds, ws);
    if CompleteRaw(rules, ws) {
      MeasuredUpToIs(rules.schedule, context, ws, |ws|);
    } else if ws != [] {
      MeasuredUpToIs(rules.schedule, context, ws, |ws| - 1);
      FailedLastIs(rules.schedule, context, ws[|ws| - 1]);
    }
  }

  lemma MeasuredUpToIs(schedule: seq<Row>, context: Context, ws: seq<WorkloadRecord>, n: nat)
    requires IsSchedule(schedule) && n <= |ws|
    ensures MeasuredUpTo(schedule, context, ws, n)
      <==> AllComplete(ws, n) && forall w :: 0 <= w < n ==> MeasuredIn(schedule, context)(ws[w])
  {
  }

  lemma FailedLastIs(schedule: seq<Row>, context: Context, r: WorkloadRecord)
    requires IsSchedule(schedule)
    ensures FailedLast(schedule, context, r) <==> r.status == FailedCollection && FailedIn(schedule, context)(r)
  {
  }

  lemma PrefixedAt(
    ids: seq<string>, ws: seq<WorkloadRecord>, measured: WorkloadRecord -> bool, failed: WorkloadRecord -> bool, w: nat)
    requires Prefixed(ids, ws, measured, failed) && w < |ws|
    ensures EndsProperly(ids, ws)
    ensures || (ws[w].status == CompletedCollection && measured(ws[w]))
      || (w == |ws| - 1 && ws[w].status == FailedCollection && failed(ws[w]))
  {
  }

  lemma WorkloadsAreRetained(rules: Rules, context: Context, now: int, batch: Batch)
    requires WellFormedRules(rules) && ValidWorkloads(rules, context, batch) && Bracketed(batch, now)
    requires BatchSchema(batch) && batch.workloads != []
    ensures Retained(
      rules.schedule, context, batch.workloads, batch.before.capturedAt, batch.after.capturedAt)
    ensures EndsProperly(rules.workloadIds, batch.workloads)
  {
    ValidIsPrefixed(rules, context, batch);
    PrefixedAreRetained(rules, context, now, batch);
  }

  lemma PrefixedAreRetained(rules: Rules, context: Context, now: int, batch: Batch)
    requires WellFormedRules(rules) && Bracketed(batch, now) && BatchSchema(batch) && batch.workloads != []
    requires Prefixed(
      rules.workloadIds, batch.workloads, MeasuredIn(rules.schedule, context), FailedIn(rules.schedule, context))
    ensures Retained(
      rules.schedule, context, batch.workloads, batch.before.capturedAt, batch.after.capturedAt)
    ensures EndsProperly(rules.workloadIds, batch.workloads)
  {
    forall w | 0 <= w < |batch.workloads|
      ensures EndsProperly(rules.workloadIds, batch.workloads)
      ensures RetainedAt(
        rules.schedule, context, batch.workloads, w, batch.before.capturedAt, batch.after.capturedAt)
    {
      PrefixedAt(
        rules.workloadIds, batch.workloads, MeasuredIn(rules.schedule, context), FailedIn(rules.schedule, context), w);
      IsRetained(
        rules.schedule, context, batch.workloads, w, batch.before.capturedAt, batch.after.capturedAt);
    }
    assert 0 < |batch.workloads|;
  }

  lemma IsRetained(
    schedule: seq<Row>, context: Context, ws: seq<WorkloadRecord>, w: nat, low: int, high: int)
    requires IsSchedule(schedule) && w < |ws| && SamplesWithin(ws[w], low, high)
    requires ws[w].status == CompletedCollection ==> MeasuredSchema(ws[w])
    requires || (ws[w].status == CompletedCollection && MeasuredIn(schedule, context)(ws[w]))
      || (w == |ws| - 1 && ws[w].status == FailedCollection && FailedIn(schedule, context)(ws[w]))
    ensures RetainedAt(schedule, context, ws, w, low, high)
  {
  }

  /** The attempt with this batch's clock readings and snapshots. */
  function AttemptOf(batch: Batch, runs: seq<WorkloadRun>): Attempt {
    Attempt(batch.startedAt, batch.before, runs, batch.after, batch.finishedAt)
  }

  /** The runs leave the workloads of the batch, if the environment let them be measured. */
  ghost predicate Accounts(rules: Rules, context: Context, batch: Batch, runs: seq<WorkloadRun>)
    requires WellFormedRules(rules)
  {
    && |runs| == |rules.workloadIds|
    && RunsLeave(
      rules.schedule, context, runs, batch.workloads, batch.before.capturedAt, batch.after.capturedAt)
    && if batch.before.eligible then EndsProperly(rules.workloadIds, batch.workloads) else batch.workloads == []
  }

  lemma AttemptIsFair(rules: Rules, context: Context, now: int, batch: Batch, runs: seq<WorkloadRun>)
    requires WellFormedRules(rules) && Accounts(rules, context, batch, runs) && Bracketed(batch, now)
    requires rules.genuine(batch.before) && rules.genuine(batch.after)
    ensures Fair(rules, now, AttemptOf(batch, runs)) && Acceptable(AttemptOf(batch, runs))
  {
    var low, high := batch.before.capturedAt, batch.after.capturedAt;
    RunsAreFair(rules.schedule, context, runs, batch.workloads, low, high);
    if batch.before.eligible {
      OnlyRetainedAreReached(rules.workloadIds, rules.schedule, context, runs, batch.workloads, low, high);
    }
  }

  lemma AttemptLeavesWorkloads(
    rules: Rules, buildMode: string, batchIndex: int, attemptIndex: int, batch: Batch, runs: seq<WorkloadRun>)
    requires WellFormedRules(rules) && RunsShaped(rules.schedule, runs)
    requires Accounts(rules, Context(buildMode, batchIndex, attemptIndex), batch, runs)
    ensures SameRecords(
      batch.workloads, BatchFor(rules, buildMode, batchIndex, attemptIndex, AttemptOf(batch, runs)).workloads)
  {
    var context := Context(buildMode, batchIndex, attemptIndex);
    var low, high := batch.before.capturedAt, batch.after.capturedAt;
    if batch.before.eligible {
      RunsLeaveWorkloads(rules.workloadIds, rules.schedule, context, runs, batch.workloads, low, high);
    }
  }

  lemma SameRecordsShow(ws: seq<WorkloadRecord>, vs: seq<WorkloadRecord>)
    requires SameRecords(ws, vs)
    ensures forall w :: 0 <= w < |ws| ==>
      ws[w].status == vs[w].status && ws[w].failureReason == vs[w].failureReason && ws[w].id == vs[w].id
    ensures (forall w :: 0 <= w < |ws| ==> ws[w].status == CompletedCollection) ==> ws == vs
  {
    forall w | 0 <= w < |ws|
      ensures ws[w].status == vs[w].status && ws[w].failureReason == vs[w].failureReason && ws[w].id == vs[w].id
      ensures ws[w].status == CompletedCollection ==> ws[w] == vs[w]
    {
      assert SameRecord(ws[w], vs[w]);
    }
  }

  /** Status, reasons, evaluation and stability follow from the workloads and the snapshots. */
  lemma VerdictIsDetermined(rules: Rules, context: Context, a: Batch, b: Batch)
    requires WellFormedRules(rules) && SameRecords(a.workloads, b.workloads)
    requires a.before == b.before && a.after == b.after
    requires ValidWorkloads(rules, context, a) && ValidWorkloads(rules, context, b)
    requires ValidStatus(rules, a) && ValidStatus(rules, b)
    ensures a.stability == b.stability && a.status == b.status && a.reasons == b.reasons
    ensures a.evaluation == b.evaluation
  {
    SameRecordsShow(a.workloads, b.workloads);
    assert CompleteRaw(rules, a.workloads) <==> CompleteRaw(rules, b.workloads);
    assert CompleteRaw(rules, a.workloads) ==> a.workloads == b.workloads;
    assert ExpectedReasons(rules, a) == ExpectedReasons(rules, b);
  }

  lemma ValidBatchesAgree(
    rules: Rules, buildMode: string, now: int, a: Batch, b: Batch, attemptIndex: nat, completed: nat)
    requires WellFormedRules(rules) && SameRecords(a.workloads, b.workloads)
    requires ValidBatch(rules, buildMode, now, a, attemptIndex, completed)
    requires ValidBatch(rules, buildMode, now, b, attemptIndex, completed)
    requires a.before == b.before && a.after == b.after && a.startedAt == b.startedAt && a.finishedAt == b.finishedAt
    ensures SameBatch(a, b)
  {
    VerdictIsDetermined(rules, Context(buildMode, completed + 1, attemptIndex), a, b);
  }

  // ----- What is the same is accepted alike -----

  lemma SameIsValid(schedule: seq<Row>, context: Context, a: WorkloadRecord, b: WorkloadRecord)
    requires IsSchedule(schedule) && SameRecord(a, b)
    ensures ValidPartial(schedule, context, b) ==> ValidPartial(schedule, context, a)
  {
  }

  lemma SameArePrefixed(
    ids: seq<string>, ws: seq<WorkloadRecord>, vs: seq<WorkloadRecord>, measured: WorkloadRecord -> bool,
    failed: WorkloadRecord -> bool)
    requires SameRecords(ws, vs) && Prefixed(ids, vs, measured, failed)
    requires vs != [] ==> (failed(vs[|vs| - 1]) ==> failed(ws[|vs| - 1]))
    ensures Prefixed(ids, ws, measured, failed)
  {
    SameRecordsShow(ws, vs);
    forall w | 0 <= w < |ws|
      ensures vs[w].status == CompletedCollection ==> ws[w] == vs[w]
    {
      assert SameRecord(ws[w], vs[w]);
    }
    assert AllMeasured(ids, ws) <==> AllMeasured(ids, vs);
  }

  lemma SameWorkloadsAreValid(rules: Rules, context: Context, batch: Batch, left: Batch)
    requires WellFormedRules(rules) && SameBatch(batch, left)
    ensures ValidWorkloads(rules, context, left) ==> ValidWorkloads(rules, context, batch)
  {
    var ws, vs := batch.workloads, left.workloads;
    ValidIsPrefixed(rules, context, batch);
    ValidIsPrefixed(rules, context, left);
    SameStability(rules, batch, left);
    if Prefixed(rules.workloadIds, vs, MeasuredIn(rules.schedule, context), FailedIn(rules.schedule, context)) {
      if vs != [] {
        SameFailsAlike(rules.schedule, context, ws, vs);
      }
      SameArePrefixed(
        rules.workloadIds, ws, vs, MeasuredIn(rules.schedule, context), FailedIn(rules.schedule, context));
    }
  }

  lemma SameFailsAlike(schedule: seq<Row>, context: Context, ws: seq<WorkloadRecord>, vs: seq<WorkloadRecord>)
    requires IsSchedule(schedule) && SameRecords(ws, vs) && vs != []
    ensures FailedIn(schedule, context)(vs[|vs| - 1]) ==> FailedIn(schedule, context)(ws[|vs| - 1])
  {
    assert SameRecord(ws[|vs| - 1], vs[|vs| - 1]);
    SameIsValid(schedule, context, ws[|vs| - 1], vs[|vs| - 1]);
  }

  lemma SameStability(rules: Rules, batch: Batch, left: Batch)
    requires SameBatch(batch, left)
    ensures RightStability(rules, left) ==> RightStability(rules, batch)
  {
    SameRecordsShow(batch.workloads, left.workloads);
    assert CompleteRaw(rules, batch.workloads) <==> CompleteRaw(rules, left.workloads);
    assert CompleteRaw(rules, batch.workloads) ==> batch.workloads == left.workloads;
  }

  lemma SameIsBracketed(now: int, batch: Batch, left: Batch)
    requires SameBatch(batch, left)
    ensures Bracketed(left, now) ==> Bracketed(batch, now)
    ensures BatchSchema(left) ==> BatchSchema(batch)
  {
    var ws, vs := batch.workloads, left.workloads;
    forall w | 0 <= w < |ws|
      ensures SamplesWithin(vs[w], batch.before.capturedAt, batch.after.capturedAt) ==>
        SamplesWithin(ws[w], batch.before.capturedAt, batch.after.capturedAt)
      ensures ws[w].status == CompletedCollection ==> ws[w] == vs[w]
    {
      assert SameRecord(ws[w], vs[w]);
      WithinIffMerged(ws[w], batch.before.capturedAt, batch.after.capturedAt);
      WithinIffMerged(vs[w], batch.before.capturedAt, batch.after.capturedAt);
    }
  }

  lemma SameVerdictIsValid(rules: Rules, batch: Batch, left: Batch)
    requires WellFormedRules(rules) && SameBatch(batch, left)
    ensures ValidStatus(rules, left) ==> ValidStatus(rules, batch)
  {
    var ws, vs := batch.workloads, left.workloads;
    SameRecordsShow(ws, vs);
    assert CompleteRaw(rules, ws) <==> CompleteRaw(rules, vs);
    assert CompleteRaw(rules, ws) ==> ws == vs;
    assert ExpectedReasons(rules, batch) == ExpectedReasons(rules, left);
  }

  // ----- Both directions -----

  /** An accepted batch of the schema's shape that measured exactly if it was let to is left by an attempt. */
  lemma AcceptedBatchIsLeft(
    rules: Rules, buildMode: string, now: int, batch: Batch, attemptIndex: nat, completed: nat)
    requires WellFormedRules(rules) && ValidBatch(rules, buildMode, now, batch, attemptIndex, completed)
    requires BatchSchema(batch) && (batch.before.eligible <==> batch.workloads != [])
    ensures LeftByAnAttempt(rules, buildMode, now, batch, attemptIndex, completed)
  {
    var context := Context(buildMode, completed + 1, attemptIndex);
    var low, high := batch.before.capturedAt, batch.after.capturedAt;
    if batch.workloads != [] {
      WorkloadsAreRetained(rules, context, now, batch);
    }
    var runs := SomeRunsLeave(rules.schedule, context, batch.workloads, low, high, |rules.workloadIds|);
    var attempt := AttemptOf(batch, runs);
    AttemptIsFair(rules, context, now, batch, runs);
    AttemptLeavesWorkloads(rules, buildMode, completed + 1, attemptIndex, batch, runs);
    BatchIsValidIff(rules, buildMode, now, completed, attemptIndex, attempt);
    ValidBatchesAgree(
      rules, buildMode, now, batch, BatchFor(rules, buildMode, completed + 1, attemptIndex, attempt), attemptIndex,
      completed);
    assert LeavesBatch(rules, buildMode, now, attempt, batch, attemptIndex, completed);
  }

  lemma LeftBatchIsAccepted(
    rules: Rules, buildMode: string, now: int, attempt: Attempt, batch: Batch, attemptIndex: nat, completed: nat)
    requires WellFormedRules(rules)
    requires LeavesBatch(rules, buildMode, now, attempt, batch, attemptIndex, completed)
    ensures ValidBatch(rules, buildMode, now, batch, attemptIndex, completed) && BatchSchema(batch)
    ensures batch.before.eligible <==> batch.workloads != []
  {
    var left := BatchFor(rules, buildMode, completed + 1, attemptIndex, attempt);
    BatchIsValidIff(rules, buildMode, now, completed, attemptIndex, attempt);
    BatchMeetsSchema(rules, buildMode, completed + 1, attemptIndex, attempt);
    SameWorkloadsAreValid(rules, Context(buildMode, completed + 1, attemptIndex), batch, left);
    SameIsBracketed(now, batch, left);
    SameVerdictIsValid(rules, batch, left);
  }

  /** Completed or invalidated, the batches that meet the schema, that the validator accepts, and that hold workloads
      exactly if the environment was eligible before them, are those that fair and acceptable attempts leave, up to
      the order within the lists of a failed workload. */
  lemma BatchIffLeftByAnAttempt(
    rules: Rules, buildMode: string, now: int, batch: Batch, attemptIndex: nat, completed: nat)
    requires WellFormedRules(rules)
    ensures LeftByAnAttempt(rules, buildMode, now, batch, attemptIndex, completed) <==>
      && ValidBatch(rules, buildMode, now, batch, attemptIndex, completed)
      && BatchSchema(batch)
      && (batch.before.eligible <==> batch.workloads != [])
  {
    if LeftByAnAttempt(rules, buildMode, now, batch, attemptIndex, completed) {
      var attempt :| LeavesBatch(rules, buildMode, now, attempt, batch, attemptIndex, completed);
      LeftBatchIsAccepted(rules, buildMode, now, attempt, batch, attemptIndex, completed);
    }
    if ValidBatch(rules, buildMode, now, batch, attemptIndex, completed) && BatchSchema(batch)
      && (batch.before.eligible <==> batch.workloads != []) {
      AcceptedBatchIsLeft(rules, buildMode, now, batch, attemptIndex, completed);
    }
  }

  // ----- What a claim rests on -----

  /** The batch is exactly what some fair and acceptable attempt leaves. */
  ghost predicate IsLeftByAnAttempt(
    rules: Rules, buildMode: string, now: int, batch: Batch, attemptIndex: nat, completed: nat)
    requires WellFormedRules(rules)
  {
    exists attempt :: Fair(rules, now, attempt) && Acceptable(attempt)
      && batch == BatchFor(rules, buildMode, completed + 1, attemptIndex, attempt)
  }

  lemma CompletedBatchIsLeft(
    rules: Rules, buildMode: string, now: int, batch: Batch, attemptIndex: nat, completed: nat)
    requires WellFormedRules(rules) && ValidBatch(rules, buildMode, now, batch, attemptIndex, completed)
    requires BatchSchema(batch) && batch.status == CompletedBatch
    ensures IsLeftByAnAttempt(rules, buildMode, now, batch, attemptIndex, completed)
  {
    NoPairIssuesIff(rules, batch.before, batch.after);
    BatchIffLeftByAnAttempt(rules, buildMode, now, batch, attemptIndex, completed);
    var attempt :| LeavesBatch(rules, buildMode, now, attempt, batch, attemptIndex, completed);
    var left := BatchFor(rules, buildMode, completed + 1, attemptIndex, attempt);
    SameRecordsShow(batch.workloads, left.workloads);
    assert batch == left;
  }

  lemma CompletedBatchesAreLeft(rules: Rules, buildMode: string, now: int, batches: seq<Batch>, b: nat)
    requires WellFormedRules(rules) && ValidBatches(rules, buildMode, now, batches) && BatchesSchema(batches)
    requires b < |batches| && batches[b].status == CompletedBatch
    ensures IsLeftByAnAttempt(
      rules, buildMode, now, batches[b], b + 1, CountStatus(batches[..b], CompletedBatch))
  {
    CompletedBatchIsLeft(rules, buildMode, now, batches[b], b + 1, CountStatus(batches[..b], CompletedBatch));
  }

  /** Evidence that meets the schema and is validated supports a claim only with completed batches each of which is
      exactly what a fair and acceptable attempt leaves, under the number it has in its protocol. */
  lemma ClaimRestsOnAttempts(rules: Rules, now: int, protocols: map<string, Protocol>, mode: string, b: nat)
    requires WellFormedRules(rules) && HasModes(protocols) && ValidModes(rules, now, protocols)
    requires forall m :: m in FORMAL_BUILD_MODES ==> ProtocolSchema(protocols[m])
    requires AggregateOutcome(protocols).claimEligible && mode in FORMAL_BUILD_MODES
    requires b < |protocols[mode].batches| && protocols[mode].batches[b].status == CompletedBatch
    ensures var batches := protocols[mode].batches;
      IsLeftByAnAttempt(rules, mode, now, batches[b], b + 1, CountStatus(batches[..b], CompletedBatch))
  {
    ClaimNeedsEveryMode(protocols, mode);
    PassedModeIsValid(rules, mode, now, protocols[mode]);
    CompletedBatchesAreLeft(rules, mode, now, protocols[mode].batches, b);
  }
}
