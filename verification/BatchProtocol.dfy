/** The batch and rerun protocol: what a run records, and what the validator accepts. */
module BatchProtocol {
  import opened Wrappers
  import opened Sampling
  import opened Measurement
  import opened CorrectnessGate

  datatype Snapshot = Snapshot(sha: string, eligible: bool, monotonicNs: int, capturedAt: int, observations: string)

  /** Stability statistics; a batch is stable when they raise no issue. */
  datatype Stability = Stability(issues: seq<string>, metrics: string)

  datatype Evaluation = IneligibleEvaluation | Evaluated(passes: bool, gates: string)

  /** The manifest, and the computations that producer and validator share. */
  datatype Rules = Rules(
    schedule: seq<Row>,
    workloadIds: seq<string>,
    formalLanes: seq<string>,
    maximumReruns: nat,
    authorization: string,
    stability: seq<WorkloadRecord> -> Stability,
    evaluate: seq<WorkloadRecord> -> Evaluation,
    otherIssues: (Snapshot, Snapshot) -> seq<string>,
    genuine: Snapshot -> bool)

  ghost predicate WellFormedRules(rules: Rules) {
    IsSchedule(rules.schedule) && rules.workloadIds != [] && rules.formalLanes != []
  }

  const INELIGIBLE_BEFORE := "dynamic environment was ineligible before the batch"

  function PairIssues(rules: Rules, before: Snapshot, after: Snapshot): seq<string> {
    (if !before.eligible || !after.eligible then ["dynamic environment snapshot was ineligible"] else [])
    + (if before.sha == after.sha then ["dynamic environment snapshot was reused"] else [])
    + (if after.monotonicNs <= before.monotonicNs then ["dynamic environment monotonic order is invalid"] else [])
    + rules.otherIssues(before, after)
  }

  datatype BatchStatus = RunningBatch | CompletedBatch | InvalidatedBatch

  datatype Batch = Batch(
    buildMode: string,
    batchIndex: int,
    attemptIndex: int,
    startedAt: int,
    authorization: string,
    before: Snapshot,
    workloads: seq<WorkloadRecord>,
    status: BatchStatus,
    reasons: seq<string>,
    stability: Option<Stability>,
    evaluation: Evaluation,
    after: Snapshot,
    finishedAt: int)

  /** What the outside world does during one attempt: clock readings, snapshots, and what each workload would
      report if it were measured. */
  datatype Attempt = Attempt(
    startedAt: int, before: Snapshot, runs: seq<WorkloadRun>, after: Snapshot, finishedAt: int)

  ghost predicate RunsShaped(schedule: seq<Row>, runs: seq<WorkloadRun>) {
    forall w :: 0 <= w < |runs| ==> RunShaped(schedule, runs[w])
  }

  ghost predicate AttemptShaped(rules: Rules, attempt: Attempt) {
    |attempt.runs| == |rules.workloadIds| && RunsShaped(rules.schedule, attempt.runs)
  }

  /** The record of one workload, run to its first failure or to the end. */
  function RunRecord(id: string, schedule: seq<Row>, context: Context, outcomes: seq<Outcome>): WorkloadRecord
    requires IsSchedule(schedule) && |outcomes| == EventCount(schedule)
  {
    RecordAfter(id, schedule, context, outcomes, Attempted(outcomes))
  }

  /** A workload whose fixture cannot be resolved keeps the record entered for it. */
  function RecordOf(id: string, schedule: seq<Row>, context: Context, run: WorkloadRun): WorkloadRecord
    requires IsSchedule(schedule) && RunShaped(schedule, run)
  {
    match run
    case Unresolved(_) => NotStartedRecord(id, context.buildMode)
    case Resolved(outcomes) => RunRecord(id, schedule, context, outcomes)
  }

  /** What each workload would leave if it were measured. */
  function Records(ids: seq<string>, schedule: seq<Row>, context: Context, runs: seq<WorkloadRun>)
    : (r: seq<WorkloadRecord>)
    requires IsSchedule(schedule) && |runs| == |ids| && RunsShaped(schedule, runs)
    ensures |r| == |ids|
    ensures forall w :: 0 <= w < |r| ==> r[w] == RecordOf(ids[w], schedule, context, runs[w])
  {
    seq(|ids|, w requires 0 <= w < |ids| && RunShaped(schedule, runs[w]) =>
      RecordOf(ids[w], schedule, context, runs[w]))
  }

  /** The error that measuring a workload ends with. */
  function Raised(run: WorkloadRun, record: WorkloadRecord): Option<string> {
    match run
    case Unresolved(reason) => Some(reason)
    case Resolved(_) => record.failureReason
  }

  /** The error that ends the measuring of all workloads. */
  function LastRaised(runs: seq<WorkloadRun>, workloads: seq<WorkloadRecord>): Option<string>
    requires |workloads| <= |runs|
  {
    if workloads == [] then None else Raised(runs[|workloads| - 1], workloads[|workloads| - 1])
  }

  /** How many workloads are measured: up to and including the first that does not complete. */
  function MeasuredCount(records: seq<WorkloadRecord>): (n: nat)
    ensures n <= |records| && (records != [] ==> n > 0)
  {
    if records == [] then 0
    else if records[0].status != CompletedCollection then 1
    else 1 + MeasuredCount(records[1..])
  }

  lemma {:induction false} MeasuredCountStops(records: seq<WorkloadRecord>)
    ensures var n := MeasuredCount(records);
      && (forall w :: 0 <= w < n - 1 ==> records[w].status == CompletedCollection)
      && (n < |records| ==> n > 0 && records[n - 1].status != CompletedCollection)
  {
    if records != [] && records[0].status == CompletedCollection {
      MeasuredCountStops(records[1..]);
      assert forall w :: 0 < w < |records| ==> records[w] == records[1..][w - 1];
    }
  }

  ghost predicate AllComplete(records: seq<WorkloadRecord>, n: nat)
    requires n <= |records|
  {
    forall w :: 0 <= w < n ==> records[w].status == CompletedCollection
  }

  lemma {:induction false} MeasuredCountIsUnique(records: seq<WorkloadRecord>, n: nat)
    requires n <= |records| && (n > 0 ==> AllComplete(records, n - 1))
    requires n < |records| ==> n > 0 && records[n - 1].status != CompletedCollection
    ensures n == MeasuredCount(records)
  {
    if records != [] && records[0].status == CompletedCollection && n > 0 {
      MeasuredCountIsUnique(records[1..], n - 1);
    }
  }

  function Collected(records: seq<WorkloadRecord>): seq<WorkloadRecord> {
    records[..MeasuredCount(records)]
  }

  predicate CompleteRaw(rules: Rules, workloads: seq<WorkloadRecord>) {
    |workloads| == |rules.workloadIds|
    && forall w :: 0 <= w < |workloads| ==> workloads[w].status == CompletedCollection
  }

  /** The reasons an attempt gives before the after-snapshot is looked at; none if it was accepted. */
  function EarlyReasons(
    rules: Rules, before: Snapshot, workloads: seq<WorkloadRecord>, error: Option<string>): seq<string> {
    if !before.eligible then [INELIGIBLE_BEFORE]
    else if CompleteRaw(rules, workloads) then rules.stability(workloads).issues
    else if error.Some? then [error.value]
    else []
  }

  /** The record of one attempt. A completed batch is revoked when the snapshots disagree. */
  function BatchFor(
    rules: Rules, buildMode: string, batchIndex: int, attemptIndex: int, attempt: Attempt): Batch
    requires WellFormedRules(rules) && AttemptShaped(rules, attempt)
  {
    var context := Context(buildMode, batchIndex, attemptIndex);
    var workloads := if attempt.before.eligible
      then Collected(Records(rules.workloadIds, rules.schedule, context, attempt.runs)) else [];
    var complete := CompleteRaw(rules, workloads);
    var early := EarlyReasons(rules, attempt.before, workloads, LastRaised(attempt.runs, workloads));
    var issues := PairIssues(rules, attempt.before, attempt.after);
    var accepted := complete && early == [] && issues == [];
    Batch(
      buildMode, batchIndex, attemptIndex, attempt.startedAt, rules.authorization, attempt.before, workloads,
      if accepted then CompletedBatch else InvalidatedBatch,
      early + issues,
      if complete then Some(rules.stability(workloads)) else None,
      if accepted then rules.evaluate(workloads) else IneligibleEvaluation,
      attempt.after, attempt.finishedAt)
  }

  /** As many attempts as the loop can ever make. */
  ghost predicate AttemptsShaped(rules: Rules, attempts: seq<Attempt>) {
    && |attempts| >= 2 + rules.maximumReruns
    && forall a :: 0 <= a < |attempts| ==> AttemptShaped(rules, attempts[a])
  }

  /** From a batch index and an attempt index, the batch that attempt records. */
  type Run = (int, int) -> Batch

  /** Attempts count from 1; what follows the last one is never run. */
  function BatchAt(rules: Rules, buildMode: string, attempts: seq<Attempt>, batchIndex: int, a: int): Batch
    requires WellFormedRules(rules) && AttemptsShaped(rules, attempts)
  {
    BatchFor(rules, buildMode, batchIndex, a, attempts[if 1 <= a <= |attempts| then a - 1 else 0])
  }

  function RunOf(rules: Rules, buildMode: string, attempts: seq<Attempt>): Run
    requires WellFormedRules(rules) && AttemptsShaped(rules, attempts)
  {
    (b: int, a: int) => BatchAt(rules, buildMode, attempts, b, a)
  }

  /** `run` is the run of these attempts. */
  ghost predicate IsRun(rules: Rules, buildMode: string, attempts: seq<Attempt>, run: Run)
    requires WellFormedRules(rules) && AttemptsShaped(rules, attempts)
  {
    forall b, a {:trigger BatchAt(rules, buildMode, attempts, b, a)} ::
      run(b, a) == BatchAt(rules, buildMode, attempts, b, a)
  }

  /** The batches after the first `attemptIndex` attempts, with `accepted` completed and `reruns` used. */
  function Collect(limit: nat, run: Run, accepted: nat, attemptIndex: nat, reruns: nat): seq<Batch>
    decreases 2 + limit - attemptIndex
  {
    if accepted >= 2 || attemptIndex >= 2 + limit then []
    else
      var batch := run(accepted + 1, attemptIndex + 1);
      if batch.status == CompletedBatch then
        [batch] + Collect(limit, run, accepted + 1, attemptIndex + 1, reruns)
      else if reruns >= limit then [batch]
      else [batch] + Collect(limit, run, accepted, attemptIndex + 1, reruns + 1)
  }

  function CountStatus(batches: seq<Batch>, status: BatchStatus): nat {
    if batches == [] then 0
    else (if batches[0].status == status then 1 else 0) + CountStatus(batches[1..], status)
  }

  // ----- The whole protocol of one build mode -----

  datatype ProtocolStatus = CompletedProtocol | IneligibleProtocol | UnavailableProtocol

  datatype Verdict = PassVerdict | FailVerdict | NotEvaluated

  datatype Protocol = Protocol(
    buildMode: string,
    status: ProtocolStatus,
    reason: string,
    correctness: seq<Item>,
    batches: seq<Batch>,
    verdict: Verdict)

  predicate CompletedBatchesPass(batches: seq<Batch>) {
    forall b :: 0 <= b < |batches| && batches[b].status == CompletedBatch ==>
      batches[b].evaluation.Evaluated? && batches[b].evaluation.passes
  }

  function ReasonText(failure: Option<string>): string {
    match failure
    case Some(message) => message
    case None => "None"
  }

  function ProtocolResult(
    rules: Rules, buildMode: string, gateOutcomes: seq<seq<Outcome>>, attempts: seq<Attempt>): Protocol
    requires WellFormedRules(rules) && AttemptsShaped(rules, attempts)
    requires Shaped(rules.workloadIds, rules.formalLanes, gateOutcomes)
  {
    var correctness := Gate(rules.workloadIds, buildMode, rules.formalLanes, gateOutcomes);
    if !GatePassed(correctness, rules.workloadIds) then
      Protocol(buildMode, IneligibleProtocol,
        "formal correctness gate failed: " + ReasonText(FailureOf(correctness)), correctness, [], NotEvaluated)
    else
      var batches := Collect(rules.maximumReruns, RunOf(rules, buildMode, attempts), 0, 0, 0);
      if CountStatus(batches, CompletedBatch) != 2 then
        Protocol(buildMode, IneligibleProtocol, "two independent stable batches were not completed",
          correctness, batches, NotEvaluated)
      else
        Protocol(buildMode, CompletedProtocol, "two independent stable batches completed", correctness, batches,
          if CompletedBatchesPass(batches) then PassVerdict else FailVerdict)
  }

  // ----- The validator -----

  const DAY := 86_400
  const FIVE_MINUTES := 300

  predicate Within(s: Sample, low: int, high: int) {
    low <= s.evidence.startedAt <= s.evidence.finishedAt <= high
  }

  ghost predicate SamplesWithin(r: WorkloadRecord, low: int, high: int) {
    forall lane: Lane, s: Sample :: s in r.warmups.Of(lane) || s in r.samples.Of(lane) ==> Within(s, low, high)
  }

  /** Start, before-snapshot, samples, after-snapshot and end follow each other within a day. */
  ghost predicate Bracketed(batch: Batch, now: int) {
    && batch.startedAt <= batch.before.capturedAt <= batch.after.capturedAt <= batch.finishedAt
    && (forall w :: 0 <= w < |batch.workloads| ==>
      SamplesWithin(batch.workloads[w], batch.before.capturedAt, batch.after.capturedAt))
    && batch.finishedAt - batch.startedAt <= DAY
    && batch.finishedAt <= now + FIVE_MINUTES
  }

  /** The first `n` workloads are completed ones. */
  ghost predicate MeasuredUpTo(schedule: seq<Row>, context: Context, ws: seq<WorkloadRecord>, n: nat)
    requires IsSchedule(schedule) && n <= |ws|
  {
    forall w :: 0 <= w < n ==> ws[w].status == CompletedCollection && ValidMeasured(schedule, context, ws[w])
  }

  ghost predicate FailedLast(schedule: seq<Row>, context: Context, r: WorkloadRecord)
    requires IsSchedule(schedule)
  {
    r.status == FailedCollection && ValidPartial(schedule, context, r)
  }

  /** Complete raw samples with the stability they have, or a completed prefix with one failed tail. */
  ghost predicate ValidWorkloads(rules: Rules, context: Context, batch: Batch)
    requires WellFormedRules(rules)
  {
    var ws := batch.workloads;
    && |ws| <= |rules.workloadIds|
    && (forall w :: 0 <= w < |ws| ==> ws[w].id == rules.workloadIds[w])
    && if CompleteRaw(rules, ws) then
        && MeasuredUpTo(rules.schedule, context, ws, |ws|)
        && batch.stability == Some(rules.stability(ws))
      else
        && batch.stability == None
        && (ws != [] ==>
            && MeasuredUpTo(rules.schedule, context, ws, |ws| - 1)
            && FailedLast(rules.schedule, context, ws[|ws| - 1]))
  }

  /** The reasons recomputed from the retained evidence. */
  function ExpectedReasons(rules: Rules, batch: Batch): seq<string> {
    (if !batch.before.eligible then [INELIGIBLE_BEFORE] else [])
    + (if CompleteRaw(rules, batch.workloads) then rules.stability(batch.workloads).issues
       else if batch.workloads != [] then [ReasonText(batch.workloads[|batch.workloads| - 1].failureReason)]
       else [])
    + PairIssues(rules, batch.before, batch.after)
  }

  predicate ValidStatus(rules: Rules, batch: Batch) {
    var complete := CompleteRaw(rules, batch.workloads);
    var stable := complete && rules.stability(batch.workloads).issues == [];
    var undisturbed := PairIssues(rules, batch.before, batch.after) == [];
    match batch.status
    case CompletedBatch =>
      && stable && undisturbed
      && batch.evaluation == rules.evaluate(batch.workloads)
      && batch.reasons == []
    case InvalidatedBatch =>
      && ExpectedReasons(rules, batch) != []
      && batch.reasons == ExpectedReasons(rules, batch)
      && batch.evaluation == IneligibleEvaluation
      && !(stable && undisturbed)
    case RunningBatch => false
  }

  /** One batch, as the `attemptIndex`-th after `completed` completed ones. */
  ghost predicate ValidBatch(
    rules: Rules, buildMode: string, now: int, batch: Batch, attemptIndex: nat, completed: nat)
    requires WellFormedRules(rules)
  {
    && batch.buildMode == buildMode
    && batch.attemptIndex == attemptIndex
    && batch.batchIndex == completed + 1
    && batch.authorization == rules.authorization
    && rules.genuine(batch.before) && rules.genuine(batch.after)
    && ValidWorkloads(rules, Context(buildMode, completed + 1, attemptIndex), batch)
    && Bracketed(batch, now)
    && ValidStatus(rules, batch)
  }

  /** No snapshot occurs twice. */
  ghost predicate FreshSnapshots(batches: seq<Batch>) {
    && (forall i :: 0 <= i < |batches| ==> batches[i].before.sha != batches[i].after.sha)
    && (forall i, j :: 0 <= i < j < |batches| ==>
      {batches[i].before.sha, batches[i].after.sha} !! {batches[j].before.sha, batches[j].after.sha})
  }

  /** Each batch is valid under the numbers the ones before it give it, snapshots are fresh, and nothing follows
      the second completed batch. */
  ghost predicate ValidBatches(rules: Rules, buildMode: string, now: int, batches: seq<Batch>)
    requires WellFormedRules(rules)
  {
    && (forall b :: 0 <= b < |batches| ==>
      ValidBatch(rules, buildMode, now, batches[b], b + 1, CountStatus(batches[..b], CompletedBatch)))
    && FreshSnapshots(batches)
    && (forall b :: 0 <= b < |batches| ==> CountStatus(batches[..b], CompletedBatch) != 2)
  }

  /** What `validate_protocol` accepts. Its limits of three batches, two invalidated ones, and exactly two for
      an ineligible protocol are fixed, whatever the manifest's rerun limit. */
  ghost predicate ValidProtocol(rules: Rules, buildMode: string, now: int, p: Protocol)
    requires WellFormedRules(rules)
  {
    var failure := FailureOf(p.correctness);
    var completed := CountStatus(p.batches, CompletedBatch);
    var invalidated := CountStatus(p.batches, InvalidatedBatch);
    && p.buildMode == buildMode
    && (p.correctness != [] ==> ValidCorrectness(p.correctness, rules.workloadIds, buildMode, rules.formalLanes))
    && |p.batches| <= 3
    && ValidBatches(rules, buildMode, now, p.batches)
    && invalidated <= 2
    && match p.status
      case CompletedProtocol =>
        && |p.correctness| == |rules.workloadIds| && failure == None
        && completed == 2 && invalidated <= 1
        && p.verdict == (if CompletedBatchesPass(p.batches) then PassVerdict else FailVerdict)
      case IneligibleProtocol =>
        && (if failure.Some?
            then p.batches == [] && p.reason == "formal correctness gate failed: " + failure.value
            else completed != 2 && invalidated == 2)
        && p.verdict == NotEvaluated
      case UnavailableProtocol => p.batches == [] && p.verdict == NotEvaluated
  }
}
