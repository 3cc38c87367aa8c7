/** On which runs producer and validator agree. */
module ProtocolAgreement {
  import opened Wrappers
  import opened Sampling
  import opened Measurement
  import opened CorrectnessGate
  import opened BatchProtocol
  import opened AttemptHistories

  // ----- One workload -----

  lemma RunStops(schedule: seq<Row>, outcomes: seq<Outcome>)
    requires IsSchedule(schedule) && |outcomes| == EventCount(schedule)
    ensures StopsAt(schedule, outcomes, Attempted(outcomes)) && Attempted(outcomes) > 0
  {
    AttemptedStops(outcomes);
  }

  /** Nothing failed exactly if the last event attempted did not. */
  lemma AllPassIff(outcomes: seq<Outcome>)
    requires outcomes != []
    ensures LanesPass(outcomes) <==> outcomes[Attempted(outcomes) - 1].Success?
  {
    var n := Attempted(outcomes);
    AttemptedStops(outcomes);
    if outcomes[n - 1].Success? {
      assert n == |outcomes|;
    }
  }

  lemma RecordStatus(id: string, schedule: seq<Row>, context: Context, outcomes: seq<Outcome>, n: nat)
    requires IsSchedule(schedule) && 0 < n <= EventCount(schedule) && n <= |outcomes|
    ensures RecordAfter(id, schedule, context, outcomes, n).status
         == if outcomes[n - 1].Success? then CompletedCollection else FailedCollection
  {
  }

  lemma RecordCompletesIff(id: string, schedule: seq<Row>, context: Context, outcomes: seq<Outcome>)
    requires IsSchedule(schedule) && |outcomes| == EventCount(schedule)
    ensures RunRecord(id, schedule, context, outcomes).status
         == if LanesPass(outcomes) then CompletedCollection else FailedCollection
  {
    AllPassIff(outcomes);
    RecordStatus(id, schedule, context, outcomes, Attempted(outcomes));
  }

  /** Whether a run completes or fails, the validator accepts its record exactly if every event taken is borne out
      by its evidence. */
  lemma RunRecordIsValidIff(id: string, schedule: seq<Row>, context: Context, outcomes: seq<Outcome>)
    requires IsSchedule(schedule) && |outcomes| == EventCount(schedule) && Outspoken(outcomes)
    ensures var r, shown := RunRecord(id, schedule, context, outcomes), AllShown(outcomes, Attempted(outcomes));
      if LanesPass(outcomes) then ValidMeasured(schedule, context, r) <==> shown
      else ValidPartial(schedule, context, r) <==> shown
  {
    var n := Attempted(outcomes);
    RunStops(schedule, outcomes);
    AllPassIff(outcomes);
    if LanesPass(outcomes) {
      assert n == |outcomes|;
      CompletedRunIsValidIff(id, schedule, context, outcomes);
    } else {
      FailedRunIsValidIff(id, schedule, context, outcomes, n);
    }
  }

  ghost predicate OutcomesWithin(outcomes: seq<Outcome>, low: int, high: int) {
    forall i :: 0 <= i < |outcomes| ==>
      low <= outcomes[i].evidence.startedAt <= outcomes[i].evidence.finishedAt <= high
  }

  lemma TakenIsWithin(
    schedule: seq<Row>, context: Context, outcomes: seq<Outcome>, n: nat, phase: Phase, lane: Lane, s: Sample,
    low: int, high: int)
    requires IsSchedule(schedule) && n <= EventCount(schedule) && n <= |outcomes|
    requires OutcomesWithin(outcomes, low, high)
    requires s in Share(Taken(schedule, context, outcomes, n), phase, lane)
    ensures Within(s, low, high)
  {
    var taken := Taken(schedule, context, outcomes, n);
    ShareComesFromEvents(taken, phase, lane, s);
    TakenAt(schedule, context, outcomes, n);
    var i :| 0 <= i < |taken| && taken[i].sample == s;
    assert s.evidence == outcomes[i].evidence;
  }

  lemma SpreadIsWithin(events: seq<Observed>, phase: Phase, low: int, high: int)
    requires forall lane: Lane, s: Sample :: s in Share(events, phase, lane) ==> Within(s, low, high)
    ensures forall lane: Lane, s: Sample :: s in Spread(events, phase).Of(lane) ==> Within(s, low, high)
  {
    forall lane: Lane, s: Sample | s in Spread(events, phase).Of(lane)
      ensures Within(s, low, high)
    {
      SpreadIsShare(events, phase, lane);
    }
  }

  lemma RecordIsWithin(
    id: string, schedule: seq<Row>, context: Context, outcomes: seq<Outcome>, n: nat, low: int, high: int)
    requires IsSchedule(schedule) && n <= EventCount(schedule) && n <= |outcomes|
    requires OutcomesWithin(outcomes, low, high)
    ensures SamplesWithin(RecordAfter(id, schedule, context, outcomes, n), low, high)
  {
    var taken := Taken(schedule, context, outcomes, n);
    ListsAreSpread(schedule, context, outcomes, n);
    forall phase: Phase
      ensures forall lane: Lane, s: Sample :: s in Spread(taken, phase).Of(lane) ==> Within(s, low, high)
    {
      forall lane: Lane, s: Sample | s in Share(taken, phase, lane)
        ensures Within(s, low, high)
      {
        TakenIsWithin(schedule, context, outcomes, n, phase, lane, s, low, high);
      }
      SpreadIsWithin(taken, phase, low, high);
    }
  }

  // ----- Which workload ends a batch -----

  /** Measuring gets to workload `w`: the fixtures before it were found and all their events succeeded. */
  ghost predicate Reached(runs: seq<WorkloadRun>, w: nat)
    requires w <= |runs|
  {
    forall v :: 0 <= v < w ==> runs[v].Resolved? && LanesPass(runs[v].outcomes)
  }

  /** Measuring gets to a workload whose fixture cannot be resolved. */
  ghost predicate MeetsUnresolved(runs: seq<WorkloadRun>) {
    exists w :: 0 <= w < |runs| && Reached(runs, w) && runs[w].Unresolved?
  }

  ghost function StatusOfRun(run: WorkloadRun): CollectionStatus {
    match run
    case Unresolved(_) => NotStarted
    case Resolved(outcomes) => if LanesPass(outcomes) then CompletedCollection else FailedCollection
  }

  ghost predicate StatusesOf(runs: seq<WorkloadRun>, records: seq<WorkloadRecord>) {
    |records| == |runs| && forall w :: 0 <= w < |records| ==> records[w].status == StatusOfRun(runs[w])
  }

  lemma RecordsHaveStatuses(ids: seq<string>, schedule: seq<Row>, context: Context, runs: seq<WorkloadRun>)
    requires IsSchedule(schedule) && |runs| == |ids| && RunsShaped(schedule, runs)
    ensures StatusesOf(runs, Records(ids, schedule, context, runs))
  {
    var records := Records(ids, schedule, context, runs);
    forall w | 0 <= w < |records|
      ensures records[w].status == StatusOfRun(runs[w])
    {
      if runs[w].Resolved? {
        RecordCompletesIff(ids[w], schedule, context, runs[w].outcomes);
      }
    }
  }

  /** The last workload entered was never filled exactly if measuring got to a missing fixture. */
  lemma LastIsNotStartedIff(runs: seq<WorkloadRun>, records: seq<WorkloadRecord>)
    requires StatusesOf(runs, records) && records != []
    ensures var ws := Collected(records);
      ws[|ws| - 1].status == NotStarted <==> MeetsUnresolved(runs)
  {
    var n := MeasuredCount(records);
    MeasuredCountStops(records);
    assert Collected(records)[n - 1] == records[n - 1];
    assert forall v :: 0 <= v < n - 1 ==> StatusOfRun(runs[v]) == CompletedCollection;
    assert Reached(runs, n - 1);
    if MeetsUnresolved(runs) {
      var w :| 0 <= w < |runs| && Reached(runs, w) && runs[w].Unresolved?;
      assert AllComplete(records, w);
      MeasuredCountIsUnique(records, w + 1);
    }
  }

  /** Measuring gets to exactly the workloads that are collected. */
  lemma CollectedIffReached(runs: seq<WorkloadRun>, records: seq<WorkloadRecord>, w: nat)
    requires StatusesOf(runs, records) && w < |runs|
    ensures w < |Collected(records)| <==> Reached(runs, w)
  {
    var n := MeasuredCount(records);
    MeasuredCountStops(records);
    assert forall v :: 0 <= v < n - 1 ==> StatusOfRun(runs[v]) == CompletedCollection;
    assert n < |runs| ==> StatusOfRun(runs[n - 1]) != CompletedCollection;
  }

  // ----- One workload of a batch -----

  ghost predicate FairWorkload(schedule: seq<Row>, run: WorkloadRun, low: int, high: int) {
    match run
    case Unresolved(_) => true
    case Resolved(outcomes) =>
      |outcomes| == EventCount(schedule) && Outspoken(outcomes) && OutcomesWithin(outcomes, low, high)
  }

  ghost predicate FairRuns(schedule: seq<Row>, runs: seq<WorkloadRun>, low: int, high: int) {
    forall w :: 0 <= w < |runs| ==> FairWorkload(schedule, runs[w], low, high)
  }

  /** The fixture is found, and every event taken is borne out by its evidence. */
  ghost predicate Presentable(run: WorkloadRun) {
    run.Resolved? && AllShown(run.outcomes, Attempted(run.outcomes))
  }

  /** So is every workload that measuring gets to. */
  ghost predicate AllPresentable(runs: seq<WorkloadRun>) {
    forall w :: 0 <= w < |runs| && Reached(runs, w) ==> Presentable(runs[w])
  }

  /** A record as its run leaves it: accepted under its own status exactly if the run is presentable. */
  ghost predicate Faithful(
    id: string, schedule: seq<Row>, context: Context, run: WorkloadRun, r: WorkloadRecord, low: int, high: int)
    requires IsSchedule(schedule)
  {
    && r.id == id && SamplesWithin(r, low, high)
    && r.status == StatusOfRun(run)
    && (r.status == CompletedCollection ==> (ValidMeasured(schedule, context, r) <==> Presentable(run)))
    && (r.status == FailedCollection ==> (ValidPartial(schedule, context, r) <==> Presentable(run)))
  }

  lemma RecordIsFaithful(
    id: string, schedule: seq<Row>, context: Context, run: WorkloadRun, low: int, high: int)
    requires IsSchedule(schedule) && FairWorkload(schedule, run, low, high)
    ensures RunShaped(schedule, run)
    ensures Faithful(id, schedule, context, run, RecordOf(id, schedule, context, run), low, high)
  {
    if run.Resolved? {
      RecordCompletesIff(id, schedule, context, run.outcomes);
      RunRecordIsValidIff(id, schedule, context, run.outcomes);
      RecordIsWithin(id, schedule, context, run.outcomes, Attempted(run.outcomes), low, high);
    }
  }

  // ----- The workloads of a batch -----

  lemma CollectedStops(records: seq<WorkloadRecord>)
    ensures var ws := Collected(records);
      && |ws| <= |records| && (forall w :: 0 <= w < |ws| ==> ws[w] == records[w])
      && (forall w :: 0 <= w < |ws| - 1 ==> ws[w].status == CompletedCollection)
      && (records != [] ==> ws != [] && (ws[|ws| - 1].status == CompletedCollection ==> |ws| == |records|))
  {
    MeasuredCountStops(records);
  }

  /** The workloads of a batch: a completed prefix, all workloads or ended by one that did not complete. */
  ghost predicate CompletedPrefix(
    ids: seq<string>, schedule: seq<Row>, context: Context, runs: seq<WorkloadRun>, ws: seq<WorkloadRecord>,
    low: int, high: int)
    requires IsSchedule(schedule)
  {
    && 0 < |ws| <= |ids| == |runs|
    && (forall w :: 0 <= w < |ws| ==> Faithful(ids[w], schedule, context, runs[w], ws[w], low, high))
    && (forall w :: 0 <= w < |ws| - 1 ==> ws[w].status == CompletedCollection)
    && (ws[|ws| - 1].status == CompletedCollection ==> |ws| == |ids|)
  }

  lemma CollectedIsPrefix(
    ids: seq<string>, schedule: seq<Row>, context: Context, runs: seq<WorkloadRun>, records: seq<WorkloadRecord>,
    low: int, high: int)
    requires IsSchedule(schedule) && |records| == |ids| == |runs| && ids != []
    requires forall w :: 0 <= w < |records| ==> Faithful(ids[w], schedule, context, runs[w], records[w], low, high)
    ensures CompletedPrefix(ids, schedule, context, runs, Collected(records), low, high)
  {
    CollectedStops(records);
    var ws := Collected(records);
    forall w | 0 <= w < |ws|
      ensures Faithful(ids[w], schedule, context, runs[w], ws[w], low, high)
    {
      assert Faithful(ids[w], schedule, context, runs[w], records[w], low, high);
    }
  }

  lemma RecordsArePrefix(
    ids: seq<string>, schedule: seq<Row>, context: Context, runs: seq<WorkloadRun>, low: int, high: int)
    requires IsSchedule(schedule) && |runs| == |ids| && ids != []
    requires RunsShaped(schedule, runs) && FairRuns(schedule, runs, low, high)
    ensures CompletedPrefix(ids, schedule, context, runs, Collected(Records(ids, schedule, context, runs)), low, high)
  {
    var records := Records(ids, schedule, context, runs);
    forall w | 0 <= w < |records|
      ensures Faithful(ids[w], schedule, context, runs[w], records[w], low, high)
    {
      RecordIsFaithful(ids[w], schedule, context, runs[w], low, high);
    }
    CollectedIsPrefix(ids, schedule, context, runs, records, low, high);
  }

  /** The first `n` runs are presentable. */
  ghost predicate PresentableUpTo(runs: seq<WorkloadRun>, n: nat)
    requires n <= |runs|
  {
    forall w :: 0 <= w < n ==> Presentable(runs[w])
  }

  lemma OneMorePresentable(runs: seq<WorkloadRun>, n: nat)
    requires n < |runs|
    ensures PresentableUpTo(runs, n + 1) <==> PresentableUpTo(runs, n) && Presentable(runs[n])
  {
  }

  lemma PrefixParts(
    ids: seq<string>, schedule: seq<Row>, context: Context, runs: seq<WorkloadRun>, ws: seq<WorkloadRecord>,
    low: int, high: int)
    requires IsSchedule(schedule) && CompletedPrefix(ids, schedule, context, runs, ws, low, high)
    ensures forall w :: 0 <= w < |ws| ==> ws[w].id == ids[w] && SamplesWithin(ws[w], low, high)
    ensures MeasuredUpTo(schedule, context, ws, |ws| - 1) <==> PresentableUpTo(runs, |ws| - 1)
  {
    forall w | 0 <= w < |ws|
      ensures ws[w].id == ids[w] && SamplesWithin(ws[w], low, high)
      ensures ws[w].status == CompletedCollection ==>
        (ValidMeasured(schedule, context, ws[w]) <==> Presentable(runs[w]))
    {
      assert Faithful(ids[w], schedule, context, runs[w], ws[w], low, high);
    }
  }

  lemma LastPart(
    ids: seq<string>, schedule: seq<Row>, context: Context, runs: seq<WorkloadRun>, ws: seq<WorkloadRecord>,
    low: int, high: int, last: WorkloadRecord)
    requires IsSchedule(schedule) && CompletedPrefix(ids, schedule, context, runs, ws, low, high)
    requires last == ws[|ws| - 1]
    ensures last.status == StatusOfRun(runs[|ws| - 1])
    ensures last.status == CompletedCollection ==>
      (ValidMeasured(schedule, context, last) <==> Presentable(runs[|ws| - 1]))
    ensures last.status != CompletedCollection ==>
      (FailedLast(schedule, context, last) <==> Presentable(runs[|ws| - 1]))
  {
    assert Faithful(ids[|ws| - 1], schedule, context, runs[|ws| - 1], last, low, high);
  }

  /** What is asked of workloads all but the last of which completed. */
  lemma WorkloadsByTheLast(rules: Rules, context: Context, batch: Batch, last: WorkloadRecord)
    requires WellFormedRules(rules) && 0 < |batch.workloads| <= |rules.workloadIds|
    requires forall w :: 0 <= w < |batch.workloads| ==> batch.workloads[w].id == rules.workloadIds[w]
    requires last == batch.workloads[|batch.workloads| - 1]
    requires CompleteRaw(rules, batch.workloads) <==> last.status == CompletedCollection
    requires batch.stability ==
      if CompleteRaw(rules, batch.workloads) then Some(rules.stability(batch.workloads)) else None
    ensures ValidWorkloads(rules, context, batch) <==>
      && MeasuredUpTo(rules.schedule, context, batch.workloads, |batch.workloads| - 1)
      && if last.status == CompletedCollection then ValidMeasured(rules.schedule, context, last)
         else FailedLast(rules.schedule, context, last)
  {
    var ws := batch.workloads;
    if last.status == CompletedCollection {
      assert MeasuredUpTo(rules.schedule, context, ws, |ws|)
        <==> MeasuredUpTo(rules.schedule, context, ws, |ws| - 1) && ValidMeasured(rules.schedule, context, last);
    }
  }

  lemma PrefixIsComplete(
    rules: Rules, context: Context, runs: seq<WorkloadRun>, ws: seq<WorkloadRecord>, low: int, high: int)
    requires WellFormedRules(rules)
    requires CompletedPrefix(rules.workloadIds, rules.schedule, context, runs, ws, low, high)
    ensures CompleteRaw(rules, ws) <==> ws[|ws| - 1].status == CompletedCollection
  {
  }

  lemma PrefixIsValidIff(rules: Rules, context: Context, runs: seq<WorkloadRun>, batch: Batch)
    requires WellFormedRules(rules)
    requires CompletedPrefix(
      rules.workloadIds, rules.schedule, context, runs, batch.workloads, batch.before.capturedAt,
      batch.after.capturedAt)
    requires batch.stability ==
      if CompleteRaw(rules, batch.workloads) then Some(rules.stability(batch.workloads)) else None
    ensures ValidWorkloads(rules, context, batch) <==> PresentableUpTo(runs, |batch.workloads|)
    ensures forall w :: 0 <= w < |batch.workloads| ==>
      SamplesWithin(batch.workloads[w], batch.before.capturedAt, batch.after.capturedAt)
  {
    var ws, low, high := batch.workloads, batch.before.capturedAt, batch.after.capturedAt;
    var n := |ws| - 1;
    var last := ws[n];
    PrefixParts(rules.workloadIds, rules.schedule, context, runs, ws, low, high);
    LastPart(rules.workloadIds, rules.schedule, context, runs, ws, low, high, last);
    PrefixIsComplete(rules, context, runs, ws, low, high);
    WorkloadsByTheLast(rules, context, batch, last);
    OneMorePresentable(runs, n);
  }

  lemma PresentableIffCollected(runs: seq<WorkloadRun>, records: seq<WorkloadRecord>)
    requires StatusesOf(runs, records)
    ensures |Collected(records)| <= |runs|
    ensures AllPresentable(runs) <==> PresentableUpTo(runs, |Collected(records)|)
  {
    forall w | 0 <= w < |runs|
      ensures w < |Collected(records)| <==> Reached(runs, w)
    {
      CollectedIffReached(runs, records, w);
    }
  }

  // ----- One batch -----

  /** Clock, snapshots and collector behave; nothing is assumed of which fixtures are found, which events fail,
      how long they take, of stability, or of the environment's eligibility. */
  ghost predicate Fair(rules: Rules, now: int, attempt: Attempt) {
    && AttemptShaped(rules, attempt)
    && rules.genuine(attempt.before) && rules.genuine(attempt.after)
    && attempt.startedAt <= attempt.before.capturedAt <= attempt.after.capturedAt <= attempt.finishedAt
    && attempt.finishedAt <= now + 5 * 60
    && FairRuns(rules.schedule, attempt.runs, attempt.before.capturedAt, attempt.after.capturedAt)
  }

  /** The attempt ends within a day of its start, and every workload it gets to has its fixture and evidence that
      bears it out. */
  ghost predicate Acceptable(attempt: Attempt) {
    && attempt.finishedAt - attempt.startedAt <= 24 * 60 * 60
    && (attempt.before.eligible ==> AllPresentable(attempt.runs))
  }

  lemma BatchWorkloads(
    rules: Rules, buildMode: string, now: int, batchIndex: int, attemptIndex: int, attempt: Attempt)
    requires WellFormedRules(rules) && Fair(rules, now, attempt)
    ensures var batch := BatchFor(rules, buildMode, batchIndex, attemptIndex, attempt);
      && (ValidWorkloads(rules, Context(buildMode, batchIndex, attemptIndex), batch)
          <==> (attempt.before.eligible ==> AllPresentable(attempt.runs)))
      && (Bracketed(batch, now) <==> attempt.finishedAt - attempt.startedAt <= 24 * 60 * 60)
  {
    var context := Context(buildMode, batchIndex, attemptIndex);
    var batch := BatchFor(rules, buildMode, batchIndex, attemptIndex, attempt);
    if attempt.before.eligible {
      RecordsArePrefix(
        rules.workloadIds, rules.schedule, context, attempt.runs, attempt.before.capturedAt, attempt.after.capturedAt);
      PrefixIsValidIff(rules, context, attempt.runs, batch);
      RecordsHaveStatuses(rules.workloadIds, rules.schedule, context, attempt.runs);
      PresentableIffCollected(attempt.runs, Records(rules.workloadIds, rules.schedule, context, attempt.runs));
    }
  }

  /** Status, reasons and evaluation are those the producer gives from workloads, error and snapshots. */
  ghost predicate Judged(rules: Rules, batch: Batch, error: Option<string>) {
    var early := EarlyReasons(rules, batch.before, batch.workloads, error);
    var issues := PairIssues(rules, batch.before, batch.after);
    var accepted := CompleteRaw(rules, batch.workloads) && early == [] && issues == [];
    && (!batch.before.eligible ==> batch.workloads == [])
    && batch.status == (if accepted then CompletedBatch else InvalidatedBatch)
    && batch.reasons == early + issues
    && batch.evaluation == (if accepted then rules.evaluate(batch.workloads) else IneligibleEvaluation)
  }

  lemma BatchIsJudged(rules: Rules, buildMode: string, batchIndex: int, attemptIndex: int, attempt: Attempt)
    requires WellFormedRules(rules) && AttemptShaped(rules, attempt)
    ensures var batch := BatchFor(rules, buildMode, batchIndex, attemptIndex, attempt);
      && |batch.workloads| <= |attempt.runs|
      && Judged(rules, batch, LastRaised(attempt.runs, batch.workloads))
  {
  }

  /** A batch that did not complete its samples says why in its last workload. */
  ghost predicate Explained(rules: Rules, batch: Batch, error: Option<string>) {
    batch.before.eligible && !CompleteRaw(rules, batch.workloads) ==>
      && batch.workloads != []
      && error == batch.workloads[|batch.workloads| - 1].failureReason
      && error.Some?
  }

  lemma JudgedReasons(rules: Rules, batch: Batch, error: Option<string>)
    requires rules.workloadIds != [] && Judged(rules, batch, error) && Explained(rules, batch, error)
    ensures ExpectedReasons(rules, batch)
      == EarlyReasons(rules, batch.before, batch.workloads, error) + PairIssues(rules, batch.before, batch.after)
    ensures !CompleteRaw(rules, batch.workloads) ==> batch.reasons != []
  {
    var early := EarlyReasons(rules, batch.before, batch.workloads, error);
    if batch.before.eligible {
      assert [] + early == early;
    } else {
      assert [INELIGIBLE_BEFORE] + [] == [INELIGIBLE_BEFORE];
    }
  }

  lemma JudgedIsValid(rules: Rules, batch: Batch, error: Option<string>)
    requires rules.workloadIds != [] && Judged(rules, batch, error) && Explained(rules, batch, error)
    ensures ValidStatus(rules, batch)
  {
    JudgedReasons(rules, batch, error);
    if !batch.before.eligible {
      assert !CompleteRaw(rules, batch.workloads);
    }
  }

  lemma FailedRecordExplains(id: string, schedule: seq<Row>, context: Context, run: WorkloadRun)
    requires IsSchedule(schedule) && RunShaped(schedule, run) && run.Resolved? && !LanesPass(run.outcomes)
    ensures RecordOf(id, schedule, context, run).failureReason.Some?
  {
    AllPassIff(run.outcomes);
  }

  /** If measuring did not complete, and no fixture was missing, the last workload collected is that of a failed
      run. */
  lemma LastOfCollected(rules: Rules, context: Context, runs: seq<WorkloadRun>)
    requires WellFormedRules(rules) && |runs| == |rules.workloadIds| && RunsShaped(rules.schedule, runs)
    requires !MeetsUnresolved(runs)
    ensures var ws := Collected(Records(rules.workloadIds, rules.schedule, context, runs));
      !CompleteRaw(rules, ws) ==>
        && 0 < |ws| <= |runs|
        && ws[|ws| - 1] == RecordOf(rules.workloadIds[|ws| - 1], rules.schedule, context, runs[|ws| - 1])
        && runs[|ws| - 1].Resolved? && !LanesPass(runs[|ws| - 1].outcomes)
  {
    var records := Records(rules.workloadIds, rules.schedule, context, runs);
    RecordsHaveStatuses(rules.workloadIds, rules.schedule, context, runs);
    LastIsNotStartedIff(runs, records);
    CollectedStops(records);
    var n := |Collected(records)|;
    assert records[n - 1].status == StatusOfRun(runs[n - 1]);
  }

  lemma CollectedIsExplained(rules: Rules, context: Context, runs: seq<WorkloadRun>, ws: seq<WorkloadRecord>)
    requires WellFormedRules(rules) && |runs| == |rules.workloadIds| && RunsShaped(rules.schedule, runs)
    requires ws == Collected(Records(rules.workloadIds, rules.schedule, context, runs)) && |ws| <= |runs|
    requires !MeetsUnresolved(runs) && !CompleteRaw(rules, ws)
    ensures ws != [] && LastRaised(runs, ws) == ws[|ws| - 1].failureReason && LastRaised(runs, ws).Some?
  {
    LastOfCollected(rules, context, runs);
    FailedRecordExplains(rules.workloadIds[|ws| - 1], rules.schedule, context, runs[|ws| - 1]);
  }

  /** A failed tail names the error that was raised. */
  lemma WorkloadsExplain(
    rules: Rules, buildMode: string, batchIndex: int, attemptIndex: int, attempt: Attempt)
    requires WellFormedRules(rules) && AttemptShaped(rules, attempt)
    requires !(attempt.before.eligible && MeetsUnresolved(attempt.runs))
    ensures var batch := BatchFor(rules, buildMode, batchIndex, attemptIndex, attempt);
      |batch.workloads| <= |attempt.runs| && Explained(rules, batch, LastRaised(attempt.runs, batch.workloads))
  {
    var ws := BatchFor(rules, buildMode, batchIndex, attemptIndex, attempt).workloads;
    if attempt.before.eligible && !CompleteRaw(rules, ws) {
      CollectedIsExplained(rules, Context(buildMode, batchIndex, attemptIndex), attempt.runs, ws);
    }
  }

  /** Unless a workload it got to lacked its fixture, an attempt leaves the status, reasons and evaluation that are
      recomputed from its evidence. */
  lemma BatchReasons(
    rules: Rules, buildMode: string, batchIndex: int, attemptIndex: int, attempt: Attempt)
    requires WellFormedRules(rules) && AttemptShaped(rules, attempt)
    ensures (attempt.before.eligible && MeetsUnresolved(attempt.runs))
      || ValidStatus(rules, BatchFor(rules, buildMode, batchIndex, attemptIndex, attempt))
  {
    if !(attempt.before.eligible && MeetsUnresolved(attempt.runs)) {
      var batch := BatchFor(rules, buildMode, batchIndex, attemptIndex, attempt);
      BatchIsJudged(rules, buildMode, batchIndex, attemptIndex, attempt);
      WorkloadsExplain(rules, buildMode, batchIndex, attemptIndex, attempt);
      JudgedIsValid(rules, batch, LastRaised(attempt.runs, batch.workloads));
    }
  }

  /** Whatever happens in an attempt, the validator recomputes its batch exactly, if and only if the attempt ended
      within a day and every workload it got to had its fixture and evidence that bears it out. */
  lemma BatchIsValidIff(
    rules: Rules, buildMode: string, now: int, completed: nat, attemptIndex: nat, attempt: Attempt)
    requires WellFormedRules(rules) && Fair(rules, now, attempt)
    ensures var batch := BatchFor(rules, buildMode, completed + 1, attemptIndex, attempt);
      ValidBatch(rules, buildMode, now, batch, attemptIndex, completed) <==> Acceptable(attempt)
  {
    BatchWorkloads(rules, buildMode, now, completed + 1, attemptIndex, attempt);
    BatchReasons(rules, buildMode, completed + 1, attemptIndex, attempt);
  }

  // ----- The batches of one protocol -----

  ghost predicate FairAttempts(rules: Rules, now: int, attempts: seq<Attempt>) {
    && |attempts| >= 2 + rules.maximumReruns
    && forall a :: 0 <= a < |attempts| ==> Fair(rules, now, attempts[a])
  }

  /** No two snapshots of the run are the same. */
  ghost predicate DistinctSnapshots(attempts: seq<Attempt>) {
    && (forall a :: 0 <= a < |attempts| ==> attempts[a].before.sha != attempts[a].after.sha)
    && (forall a, a' :: 0 <= a < a' < |attempts| ==>
      {attempts[a].before.sha, attempts[a].after.sha} !! {attempts[a'].before.sha, attempts[a'].after.sha})
  }

  /** A batch has the snapshots of its attempt, and is valid under its own number exactly if the attempt is
      acceptable. */
  ghost predicate Represents(
    rules: Rules, buildMode: string, now: int, attempt: Attempt, batch: Batch, completed: nat, attemptIndex: nat)
    requires WellFormedRules(rules)
  {
    && (ValidBatch(rules, buildMode, now, batch, attemptIndex, completed) <==> Acceptable(attempt))
    && batch.before.sha == attempt.before.sha && batch.after.sha == attempt.after.sha
  }

  ghost predicate Agrees(
    rules: Rules, buildMode: string, now: int, attempts: seq<Attempt>, run: Run, completed: nat, a: nat)
    requires WellFormedRules(rules) && a < |attempts|
  {
    Represents(rules, buildMode, now, attempts[a], run(completed + 1, a + 1), completed, a + 1)
  }

  lemma BatchRepresents(
    rules: Rules, buildMode: string, now: int, attempt: Attempt, completed: nat, attemptIndex: nat)
    requires WellFormedRules(rules) && Fair(rules, now, attempt)
    ensures Represents(
      rules, buildMode, now, attempt, BatchFor(rules, buildMode, completed + 1, attemptIndex, attempt),
      completed, attemptIndex)
  {
    BatchIsValidIff(rules, buildMode, now, completed, attemptIndex, attempt);
  }

  lemma AttemptAgrees(rules: Rules, buildMode: string, now: int, attempts: seq<Attempt>, completed: nat, a: nat)
    requires WellFormedRules(rules) && FairAttempts(rules, now, attempts) && a < |attempts|
    ensures Agrees(rules, buildMode, now, attempts, RunOf(rules, buildMode, attempts), completed, a)
  {
    BatchRepresents(rules, buildMode, now, attempts[a], completed, a + 1);
    assert RunOf(rules, buildMode, attempts)(completed + 1, a + 1)
      == BatchAt(rules, buildMode, attempts, completed + 1, a + 1);
  }

  lemma RunIsDecisive(rules: Rules, buildMode: string, attempts: seq<Attempt>)
    requires WellFormedRules(rules) && AttemptsShaped(rules, attempts)
    ensures Decisive(RunOf(rules, buildMode, attempts))
  {
    var run := RunOf(rules, buildMode, attempts);
    forall b: int, a: int
      ensures run(b, a).status != RunningBatch
    {
      assert run(b, a) == BatchAt(rules, buildMode, attempts, b, a);
    }
  }

  lemma SnapshotsStayFresh(attempts: seq<Attempt>, batches: seq<Batch>)
    requires DistinctSnapshots(attempts) && |batches| <= |attempts|
    requires forall b :: 0 <= b < |batches| ==>
      batches[b].before.sha == attempts[b].before.sha && batches[b].after.sha == attempts[b].after.sha
    ensures FreshSnapshots(batches)
  {
  }

  /** Batch `b` is that of the next attempt, under the number after those completed before it. */
  ghost predicate Numbered(run: Run, batches: seq<Batch>, b: nat)
    requires b < |batches|
  {
    var completed := CountStatus(batches[..b], CompletedBatch);
    completed < 2 && batches[b] == run(completed + 1, b + 1)
  }

  /** The first `n` attempts are acceptable. */
  ghost predicate AllAcceptable(attempts: seq<Attempt>, n: nat)
    requires n <= |attempts|
  {
    forall a :: 0 <= a < n ==> Acceptable(attempts[a])
  }

  /** Batch `b` is numbered right and represents the next attempt. */
  ghost predicate Settled(
    rules: Rules, buildMode: string, now: int, attempts: seq<Attempt>, batches: seq<Batch>, b: nat)
    requires WellFormedRules(rules) && b < |batches| <= |attempts|
  {
    var completed := CountStatus(batches[..b], CompletedBatch);
    completed < 2 && Represents(rules, buildMode, now, attempts[b], batches[b], completed, b + 1)
  }

  lemma NumberedIsSettled(
    rules: Rules, buildMode: string, now: int, attempts: seq<Attempt>, run: Run, batches: seq<Batch>, b: nat)
    requires WellFormedRules(rules) && b < |batches| <= |attempts| && Numbered(run, batches, b)
    requires Agrees(rules, buildMode, now, attempts, run, CountStatus(batches[..b], CompletedBatch), b)
    ensures Settled(rules, buildMode, now, attempts, batches, b)
  {
  }

  lemma SettledIsValidIff(
    rules: Rules, buildMode: string, now: int, attempts: seq<Attempt>, batches: seq<Batch>, b: nat)
    requires WellFormedRules(rules) && b < |batches| <= |attempts|
    requires Settled(rules, buildMode, now, attempts, batches, b)
    ensures ValidBatch(rules, buildMode, now, batches[b], b + 1, CountStatus(batches[..b], CompletedBatch))
      <==> Acceptable(attempts[b])
    ensures CountStatus(batches[..b], CompletedBatch) != 2
    ensures batches[b].before.sha == attempts[b].before.sha && batches[b].after.sha == attempts[b].after.sha
  {
  }

  /** Numbering, reasons and statuses of the batches are those the validator recomputes, exactly if all attempts
      made are acceptable. */
  lemma SettledAreValidIff(
    rules: Rules, buildMode: string, now: int, attempts: seq<Attempt>, batches: seq<Batch>)
    requires WellFormedRules(rules) && DistinctSnapshots(attempts) && |batches| <= |attempts|
    requires forall b :: 0 <= b < |batches| ==> Settled(rules, buildMode, now, attempts, batches, b)
    ensures ValidBatches(rules, buildMode, now, batches) <==> AllAcceptable(attempts, |batches|)
  {
    forall b | 0 <= b < |batches|
      ensures batches[b].before.sha == attempts[b].before.sha && batches[b].after.sha == attempts[b].after.sha
      ensures CountStatus(batches[..b], CompletedBatch) != 2
      ensures ValidBatch(rules, buildMode, now, batches[b], b + 1, CountStatus(batches[..b], CompletedBatch))
        <==> Acceptable(attempts[b])
    {
      SettledIsValidIff(rules, buildMode, now, attempts, batches, b);
    }
    SnapshotsStayFresh(attempts, batches);
  }

  lemma CollectedFromRun(limit: nat, run: Run, batches: seq<Batch>)
    requires batches == Collect(limit, run, 0, 0, 0)
    ensures |batches| <= 2 + limit
    ensures forall b :: 0 <= b < |batches| ==> Numbered(run, batches, b)
  {
    forall b | 0 <= b < |batches|
      ensures Numbered(run, batches, b)
    {
      CollectAt(limit, run, 0, 0, 0, b);
    }
    if batches != [] {
      CollectAt(limit, run, 0, 0, 0, |batches| - 1);
    }
  }

  // ----- The whole protocol -----

  /** What a run of one build mode needs of the outside world. */
  ghost predicate FairRun(
    rules: Rules, now: int, gateOutcomes: seq<seq<Outcome>>, attempts: seq<Attempt>) {
    && WellFormedRules(rules)
    && Shaped(rules.workloadIds, rules.formalLanes, gateOutcomes) && OutspokenGate(gateOutcomes)
    && FairAttempts(rules, now, attempts) && DistinctSnapshots(attempts)
  }

  lemma ProducedBatches(rules: Rules, buildMode: string, now: int, attempts: seq<Attempt>)
    requires WellFormedRules(rules) && FairAttempts(rules, now, attempts) && DistinctSnapshots(attempts)
    ensures var batches := Collect(rules.maximumReruns, RunOf(rules, buildMode, attempts), 0, 0, 0);
      && |batches| <= |attempts|
      && (ValidBatches(rules, buildMode, now, batches) <==> AllAcceptable(attempts, |batches|))
      && EndsAs(batches, 0, 0, rules.maximumReruns)
  {
    var run := RunOf(rules, buildMode, attempts);
    RunIsDecisive(rules, buildMode, attempts);
    CollectEnds(rules.maximumReruns, run, 0, 0, 0);
    forall completed: nat, a: nat | a < |attempts|
      ensures Agrees(rules, buildMode, now, attempts, run, completed, a)
    {
      AttemptAgrees(rules, buildMode, now, attempts, completed, a);
    }
    var batches := Collect(rules.maximumReruns, run, 0, 0, 0);
    CollectedFromRun(rules.maximumReruns, run, batches);
    forall b | 0 <= b < |batches|
      ensures Settled(rules, buildMode, now, attempts, batches, b)
    {
      NumberedIsSettled(rules, buildMode, now, attempts, run, batches, b);
    }
    SettledAreValidIff(rules, buildMode, now, attempts, batches);
  }

  /** The record of a run whose gate passed, but for its batches. */
  ghost predicate AfterPassedGate(rules: Rules, p: Protocol) {
    && p.correctness != [] && |p.correctness| == |rules.workloadIds| && FailureOf(p.correctness) == None
    && EndsAs(p.batches, 0, 0, rules.maximumReruns)
    && if CountStatus(p.batches, CompletedBatch) == 2
       then p.status == CompletedProtocol
            && p.verdict == (if CompletedBatchesPass(p.batches) then PassVerdict else FailVerdict)
       else p.status == IneligibleProtocol && p.verdict == NotEvaluated
  }

  /** The record of a run whose gate failed. */
  ghost predicate AfterFailedGate(p: Protocol) {
    && p.correctness != [] && FailureOf(p.correctness).Some?
    && p.reason == "formal correctness gate failed: " + FailureOf(p.correctness).value
    && p.status == IneligibleProtocol && p.batches == [] && p.verdict == NotEvaluated
  }

  /** What is known of a run's record before the validator looks at it. */
  lemma ProducedProtocol(
    rules: Rules, buildMode: string, now: int, gateOutcomes: seq<seq<Outcome>>, attempts: seq<Attempt>)
    returns (p: Protocol)
    requires FairRun(rules, now, gateOutcomes, attempts)
    ensures p == ProtocolResult(rules, buildMode, gateOutcomes, attempts)
    ensures p.buildMode == buildMode
    ensures ValidCorrectness(p.correctness, rules.workloadIds, buildMode, rules.formalLanes)
      <==> GateShown(gateOutcomes)
    ensures AllLanesPass(gateOutcomes) ==>
      && AfterPassedGate(rules, p)
      && p.batches == Collect(rules.maximumReruns, RunOf(rules, buildMode, attempts), 0, 0, 0)
      && |p.batches| <= |attempts|
      && (ValidBatches(rules, buildMode, now, p.batches) <==> AllAcceptable(attempts, |p.batches|))
    ensures !AllLanesPass(gateOutcomes) ==> AfterFailedGate(p)
  {
    p := ProtocolResult(rules, buildMode, gateOutcomes, attempts);
    GateIsValidIff(rules.workloadIds, buildMode, rules.formalLanes, gateOutcomes);
    GatePassesIff(rules.workloadIds, buildMode, rules.formalLanes, gateOutcomes);
    GateStopsAtFailure(rules.workloadIds, buildMode, rules.formalLanes, gateOutcomes);
    if AllLanesPass(gateOutcomes) {
      ProducedBatches(rules, buildMode, now, attempts);
    }
  }

  /** What the history of attempts has to be for its batches to be accepted: two batches completed by the third
      attempt, or, with the one rerun the validator knows of, that rerun used up; and every attempt made is
      acceptable. */
  ghost predicate AcceptableHistory(limit: nat, run: Run, attempts: seq<Attempt>)
    requires |attempts| >= 2 + limit
  {
    || (exists i, j :: CompleteAt(limit, run, i, j) && j <= 3 && AllAcceptable(attempts, j))
    || (&& limit == 1 && (forall i, j :: !CompleteAt(limit, run, i, j))
        && AllAcceptable(attempts, if OnceComplete(limit, run) then 3 else 2))
  }

  /** The batches of a run, seen from its attempts. */
  lemma HistoryIsAcceptableIff(
    rules: Rules, buildMode: string, run: Run, attempts: seq<Attempt>, batches: seq<Batch>, valid: bool)
    requires |attempts| >= 2 + rules.maximumReruns && batches == Collect(rules.maximumReruns, run, 0, 0, 0)
    requires |batches| <= |attempts| && (valid <==> AllAcceptable(attempts, |batches|))
    requires EndsAs(batches, 0, 0, rules.maximumReruns)
    ensures AcceptableHistory(rules.maximumReruns, run, attempts) <==>
      && valid
      && if CountStatus(batches, CompletedBatch) == 2 then CountStatus(batches, InvalidatedBatch) <= 1
         else rules.maximumReruns == 1
  {
    var limit := rules.maximumReruns;
    if i, j :| CompleteAt(limit, run, i, j) {
      CompletedHistory(limit, run, i, j);
      forall i', j' | CompleteAt(limit, run, i', j')
        ensures j' == j
      {
        CompletedHistory(limit, run, i', j');
      }
    } else {
      ExhaustedHistory(limit, run);
    }
  }

  /** The batches and the limits that are fixed in the validator decide after a passed gate. */
  lemma BatchesDecide(rules: Rules, p: Protocol, buildMode: string, now: int)
    requires WellFormedRules(rules) && p.buildMode == buildMode && AfterPassedGate(rules, p)
    ensures ValidProtocol(rules, buildMode, now, p) <==>
      && ValidCorrectness(p.correctness, rules.workloadIds, buildMode, rules.formalLanes)
      && ValidBatches(rules, buildMode, now, p.batches)
      && if CountStatus(p.batches, CompletedBatch) == 2 then CountStatus(p.batches, InvalidatedBatch) <= 1
         else rules.maximumReruns == 1
  {
  }

  /** Nothing else is asked after a failed one. */
  lemma GateDecides(rules: Rules, p: Protocol, buildMode: string, now: int)
    requires WellFormedRules(rules) && p.buildMode == buildMode && AfterFailedGate(p)
    ensures ValidProtocol(rules, buildMode, now, p)
      <==> ValidCorrectness(p.correctness, rules.workloadIds, buildMode, rules.formalLanes)
  {
  }

  /** The validator accepts what the producer recorded if and only if every lane the gate attempted is borne out by
      its evidence, and the gate failed or the history of attempts is acceptable. */
  lemma RunIsAcceptedIff(
    rules: Rules, buildMode: string, now: int, gateOutcomes: seq<seq<Outcome>>, attempts: seq<Attempt>)
    requires FairRun(rules, now, gateOutcomes, attempts)
    ensures ValidProtocol(rules, buildMode, now, ProtocolResult(rules, buildMode, gateOutcomes, attempts)) <==>
      && GateShown(gateOutcomes)
      && (AllLanesPass(gateOutcomes) ==>
          AcceptableHistory(rules.maximumReruns, RunOf(rules, buildMode, attempts), attempts))
  {
    var p := ProducedProtocol(rules, buildMode, now, gateOutcomes, attempts);
    if AllLanesPass(gateOutcomes) {
      BatchesDecide(rules, p, buildMode, now);
      HistoryIsAcceptableIff(
        rules, buildMode, RunOf(rules, buildMode, attempts), attempts, p.batches,
        ValidBatches(rules, buildMode, now, p.batches));
    } else {
      GateDecides(rules, p, buildMode, now);
    }
  }

  /** The attempts that are made when one rerun is allowed. */
  ghost function AttemptsMade(run: Run): nat {
    if run(1, 1).status == CompletedBatch then (if run(2, 2).status == CompletedBatch then 2 else 3)
    else if run(1, 2).status == CompletedBatch then 3
    else 2
  }

  /** These are all the attempts that leave a batch. */
  lemma AttemptsMadeAreCollected(run: Run)
    ensures |Collect(1, run, 0, 0, 0)| == AttemptsMade(run)
  {
    if run(1, 1).status == run(2, 2).status == CompletedBatch {
      CompletedHistory(1, run, 1, 2);
    } else if i, j :| CompleteAt(1, run, i, j) {
      CompletedHistory(1, run, i, j);
    } else {
      ExhaustedHistory(1, run);
    }
  }

  lemma HistoryOfOneRerun(run: Run, attempts: seq<Attempt>)
    requires |attempts| >= 3
    ensures AcceptableHistory(1, run, attempts) <==> AllAcceptable(attempts, AttemptsMade(run))
  {
    if run(1, 1).status == CompletedBatch {
      assert FirstSuccess(1, run, 1, 1, 1);
      if run(2, 2).status == CompletedBatch {
        assert CompleteAt(1, run, 1, 2);
      } else if run(2, 3).status == CompletedBatch {
        assert CompleteAt(1, run, 1, 3);
      }
    } else if run(1, 2).status == CompletedBatch {
      assert FirstSuccess(1, run, 1, 1, 2);
      if run(2, 3).status == CompletedBatch {
        assert CompleteAt(1, run, 2, 3);
      }
    }
  }

  /** With one rerun, as the manifest has it, a run is accepted if and only if what it reports is borne out by its
      evidence, every fixture it needs is found, and no attempt takes longer than a day. */
  lemma RunIsAccepted(
    rules: Rules, buildMode: string, now: int, gateOutcomes: seq<seq<Outcome>>, attempts: seq<Attempt>)
    requires FairRun(rules, now, gateOutcomes, attempts) && rules.maximumReruns == 1
    ensures ValidProtocol(rules, buildMode, now, ProtocolResult(rules, buildMode, gateOutcomes, attempts)) <==>
      && GateShown(gateOutcomes)
      && (AllLanesPass(gateOutcomes) ==> AllAcceptable(attempts, AttemptsMade(RunOf(rules, buildMode, attempts))))
  {
    RunIsAcceptedIff(rules, buildMode, now, gateOutcomes, attempts);
    HistoryOfOneRerun(RunOf(rules, buildMode, attempts), attempts);
  }
}
