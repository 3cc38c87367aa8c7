/** The protocol as it is run: counters, flags and lists updated attempt by attempt. */
module ProtocolRuns {
  import opened Wrappers
  import opened Sampling
  import opened Measurement
  import opened CorrectnessGate
  import opened BatchProtocol

  lemma StopIsAttempted(schedule: seq<Row>, outcomes: seq<Outcome>, n: nat)
    requires |outcomes| == EventCount(schedule) && StopsAt(schedule, outcomes, n)
    ensures n == Attempted(outcomes)
  {
    AttemptedIsUnique(outcomes, n);
  }

  /** One workload, through the evidence object that survives a failure. */
  method MeasureWorkload(id: string, schedule: seq<Row>, context: Context, run: WorkloadRun)
    returns (record: WorkloadRecord, error: Option<string>)
    requires IsSchedule(schedule) && RunShaped(schedule, run)
    ensures record == RecordOf(id, schedule, context, run) && error == Raised(run, record)
    ensures error.None? <==> record.status == CompletedCollection
  {
    var evidence := new WorkloadEvidence(id, context.buildMode);
    ghost var n: nat;
    error, n := evidence.MeasureWorkloadBatch(schedule, context, run);
    if run.Resolved? {
      StopIsAttempted(schedule, run.outcomes, n);
    }
    record := evidence.record;
  }

  /** `records` is what each workload would leave. */
  ghost predicate AreRecords(
    ids: seq<string>, schedule: seq<Row>, context: Context, runs: seq<WorkloadRun>, records: seq<WorkloadRecord>)
    requires IsSchedule(schedule) && |runs| == |ids| && RunsShaped(schedule, runs)
  {
    && |records| == |ids|
    && forall w {:trigger RecordOf(ids[w], schedule, context, runs[w])} :: 0 <= w < |ids| ==>
      records[w] == RecordOf(ids[w], schedule, context, runs[w])
  }

  method MeasureNext(
    ids: seq<string>, schedule: seq<Row>, context: Context, runs: seq<WorkloadRun>, w: nat,
    ghost records: seq<WorkloadRecord>)
    returns (record: WorkloadRecord, error: Option<string>)
    requires IsSchedule(schedule) && |runs| == |ids| && w < |ids| && RunsShaped(schedule, runs)
    requires AreRecords(ids, schedule, context, runs, records)
    ensures record == records[w] && error == Raised(runs[w], record)
    ensures error.None? <==> record.status == CompletedCollection
  {
    record, error := MeasureWorkload(ids[w], schedule, context, runs[w]);
  }

  method MeasureUntilFailure(
    ids: seq<string>, schedule: seq<Row>, context: Context, runs: seq<WorkloadRun>,
    ghost records: seq<WorkloadRecord>)
    returns (workloads: seq<WorkloadRecord>, error: Option<string>)
    requires IsSchedule(schedule) && |runs| == |ids| && RunsShaped(schedule, runs)
    requires AreRecords(ids, schedule, context, runs, records)
    ensures workloads == Collected(records) && error == LastRaised(runs, workloads)
    ensures error.None? <==> AllComplete(workloads, |workloads|)
    ensures error.None? ==> |workloads| == |ids|
  {
    workloads, error := [], None;
    var w := 0;
    while w < |ids|
      invariant 0 <= w <= |ids| && workloads == records[..w] && error == None
      invariant LastRaised(runs, workloads) == None
      invariant AllComplete(records, w)
    {
      var record;
      record, error := MeasureNext(ids, schedule, context, runs, w, records);
      workloads := workloads + [record];
      w := w + 1;
      if error.Some? {
        MeasuredCountIsUnique(records, w);
        return;
      }
    }
    MeasuredCountIsUnique(records, w);
  }

  /** Workloads in order, up to and including the first that does not complete, and the error it ended with. */
  method MeasureWorkloads(ids: seq<string>, schedule: seq<Row>, context: Context, runs: seq<WorkloadRun>)
    returns (workloads: seq<WorkloadRecord>, error: Option<string>)
    requires IsSchedule(schedule) && |runs| == |ids| && RunsShaped(schedule, runs)
    ensures workloads == Collected(Records(ids, schedule, context, runs))
    ensures error == LastRaised(runs, workloads)
    ensures error.None? <==> AllComplete(workloads, |workloads|)
    ensures error.None? ==> |workloads| == |ids|
  {
    workloads, error := MeasureUntilFailure(ids, schedule, context, runs, Records(ids, schedule, context, runs));
  }

  /** Everything about a batch that the workloads, the error that ended them and the snapshots decide. */
  method Judge(
    rules: Rules, before: Snapshot, after: Snapshot, workloads: seq<WorkloadRecord>, error: Option<string>,
    accepted: nat)
    returns (
      status: BatchStatus, reasons: seq<string>, stability: Option<Stability>, evaluation: Evaluation, accepted': nat)
    requires rules.workloadIds != [] && (!before.eligible ==> workloads == [])
    requires before.eligible ==> (error.None? <==> CompleteRaw(rules, workloads))
    ensures var complete := before.eligible && CompleteRaw(rules, workloads);
      var early := EarlyReasons(rules, before, workloads, error);
      var issues := PairIssues(rules, before, after);
      && status == (if complete && early == [] && issues == [] then CompletedBatch else InvalidatedBatch)
      && reasons == early + issues
      && stability == (if complete then Some(rules.stability(workloads)) else None)
      && evaluation == (if status == CompletedBatch then rules.evaluate(workloads) else IneligibleEvaluation)
      && accepted' == (if status == CompletedBatch then accepted + 1 else accepted)
  {
    status, reasons, stability, evaluation, accepted' := RunningBatch, [], None, IneligibleEvaluation, accepted;
    if !before.eligible {
      status, reasons := InvalidatedBatch, [INELIGIBLE_BEFORE];
    } else if error.Some? {
      status, reasons := InvalidatedBatch, [error.value];
    } else {
      stability := Some(rules.stability(workloads));
      if stability.value.issues == [] {
        evaluation := rules.evaluate(workloads);
        status := CompletedBatch;
        accepted' := accepted' + 1;
      } else {
        status := InvalidatedBatch;
        reasons := reasons + stability.value.issues;
      }
    }
    var issues := PairIssues(rules, before, after);
    if issues != [] {
      if status == CompletedBatch {
        accepted' := accepted' - 1;
      }
      status := InvalidatedBatch;
      evaluation := IneligibleEvaluation;
    }
    reasons := reasons + issues;
  }

  /** One attempt, from the snapshot before it to the one after it. */
  method RunAttempt(rules: Rules, buildMode: string, accepted: nat, attemptIndex: nat, attempt: Attempt)
    returns (batch: Batch, accepted': nat)
    requires WellFormedRules(rules) && AttemptShaped(rules, attempt)
    ensures batch == BatchFor(rules, buildMode, accepted + 1, attemptIndex, attempt)
    ensures accepted' == if batch.status == CompletedBatch then accepted + 1 else accepted
  {
    var context := Context(buildMode, accepted + 1, attemptIndex);
    var workloads, error := [], None;
    if attempt.before.eligible {
      workloads, error := MeasureWorkloads(rules.workloadIds, rules.schedule, context, attempt.runs);
    }
    var status, reasons, stability, evaluation, a :=
      Judge(rules, attempt.before, attempt.after, workloads, error, accepted);
    batch := Batch(
      buildMode, accepted + 1, attemptIndex, attempt.startedAt, rules.authorization, attempt.before, workloads,
      status, reasons, stability, evaluation, attempt.after, attempt.finishedAt);
    accepted' := a;
  }

  method RunNext(rules: Rules, buildMode: string, attempts: seq<Attempt>, ghost run: Run, accepted: nat, a: nat)
    returns (batch: Batch, accepted': nat)
    requires WellFormedRules(rules) && AttemptsShaped(rules, attempts) && 1 <= a <= |attempts|
    requires IsRun(rules, buildMode, attempts, run)
    ensures batch == run(accepted + 1, a)
    ensures accepted' == if batch.status == CompletedBatch then accepted + 1 else accepted
  {
    batch, accepted' := RunAttempt(rules, buildMode, accepted, a, attempts[a - 1]);
    assert batch == BatchAt(rules, buildMode, attempts, accepted + 1, a);
  }

  lemma CollectStep(limit: nat, run: Run, accepted: nat, attemptIndex: nat, reruns: nat, done: seq<Batch>, batch: Batch)
    requires accepted < 2 && attemptIndex < 2 + limit && batch == run(accepted + 1, attemptIndex + 1)
    ensures done + Collect(limit, run, accepted, attemptIndex, reruns)
      == if batch.status == CompletedBatch then
           done + [batch] + Collect(limit, run, accepted + 1, attemptIndex + 1, reruns)
         else if reruns >= limit then done + [batch]
         else done + [batch] + Collect(limit, run, accepted, attemptIndex + 1, reruns + 1)
  {
  }

  method CollectRun(rules: Rules, buildMode: string, attempts: seq<Attempt>, ghost run: Run)
    returns (batches: seq<Batch>)
    requires WellFormedRules(rules) && AttemptsShaped(rules, attempts)
    requires IsRun(rules, buildMode, attempts, run)
    ensures batches == Collect(rules.maximumReruns, run, 0, 0, 0)
  {
    batches := [];
    var accepted: nat, attemptIndex: nat, reruns: nat := 0, 0, 0;
    while accepted < 2 && attemptIndex < 2 + rules.maximumReruns
      invariant batches + Collect(rules.maximumReruns, run, accepted, attemptIndex, reruns)
             == Collect(rules.maximumReruns, run, 0, 0, 0)
      decreases 2 + rules.maximumReruns - attemptIndex
    {
      var batch, accepted' := RunNext(rules, buildMode, attempts, run, accepted, attemptIndex + 1);
      CollectStep(rules.maximumReruns, run, accepted, attemptIndex, reruns, batches, batch);
      batches := batches + [batch];
      accepted, attemptIndex := accepted', attemptIndex + 1;
      if batch.status != CompletedBatch {
        if reruns >= rules.maximumReruns {
          return;
        }
        reruns := reruns + 1;
      }
    }
  }

  /** Attempts until two batches are accepted, or one attempt more than the reruns allowed has been invalidated. */
  method CollectProtocolBatches(rules: Rules, buildMode: string, attempts: seq<Attempt>) returns (batches: seq<Batch>)
    requires WellFormedRules(rules) && AttemptsShaped(rules, attempts)
    ensures batches == Collect(rules.maximumReruns, RunOf(rules, buildMode, attempts), 0, 0, 0)
  {
    batches := CollectRun(rules, buildMode, attempts, RunOf(rules, buildMode, attempts));
  }

  method RunProtocol(rules: Rules, buildMode: string, gateOutcomes: seq<seq<Outcome>>, attempts: seq<Attempt>)
    returns (p: Protocol)
    requires WellFormedRules(rules) && AttemptsShaped(rules, attempts)
    requires Shaped(rules.workloadIds, rules.formalLanes, gateOutcomes)
    ensures p == ProtocolResult(rules, buildMode, gateOutcomes, attempts)
  {
    var correctness := CorrectnessGate.CorrectnessGate(rules.workloadIds, buildMode, rules.formalLanes, gateOutcomes);
    GateStopsAtFailure(rules.workloadIds, buildMode, rules.formalLanes, gateOutcomes);
    if !GatePassed(correctness, rules.workloadIds) {
      return Protocol(
        buildMode, IneligibleProtocol, "formal correctness gate failed: " + ReasonText(FailureOf(correctness)),
        correctness, [], NotEvaluated);
    }
    var batches := CollectProtocolBatches(rules, buildMode, attempts);
    if CountStatus(batches, CompletedBatch) != 2 {
      return Protocol(
        buildMode, IneligibleProtocol, "two independent stable batches were not completed", correctness, batches,
        NotEvaluated);
    }
    p := Protocol(
      buildMode, CompletedProtocol, "two independent stable batches completed", correctness, batches,
      if CompletedBatchesPass(batches) then PassVerdict else FailVerdict);
  }
}
