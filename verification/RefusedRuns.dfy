/** Runs that are recorded in good faith and that the validator refuses: any fair run becomes one when its first
    attempt takes too long, lacks a fixture, or ends a process that exits as it is being killed. */
module RefusedRuns {
  import opened Wrappers
  import opened Sampling
  import opened CorrectnessGate
  import opened BatchProtocol
  import opened ProtocolAgreement

  // ----- The first attempt, replaced -----

  lemma ReplacedIsFair(
    rules: Rules, now: int, gate: seq<seq<Outcome>>, attempts: seq<Attempt>, first: Attempt)
    requires FairRun(rules, now, gate, attempts) && Fair(rules, now, first)
    requires first.before == attempts[0].before && first.after == attempts[0].after
    ensures FairRun(rules, now, gate, attempts[0 := first])
  {
  }

  /** A fair run whose record the validator refuses. */
  ghost predicate Refuses(
    rules: Rules, buildMode: string, now: int, gate: seq<seq<Outcome>>, attempts: seq<Attempt>)
  {
    && FairRun(rules, now, gate, attempts)
    && !ValidProtocol(rules, buildMode, now, ProtocolResult(rules, buildMode, gate, attempts))
  }

  /** A first attempt that is not acceptable is enough to have the whole run refused. */
  lemma FirstAttemptDecides(
    rules: Rules, buildMode: string, now: int, gate: seq<seq<Outcome>>, attempts: seq<Attempt>)
    requires FairRun(rules, now, gate, attempts) && AllLanesPass(gate) && !Acceptable(attempts[0])
    ensures Refuses(rules, buildMode, now, gate, attempts)
  {
    var p := ProducedProtocol(rules, buildMode, now, gate, attempts);
    assert |p.batches| > 0;
    BatchesDecide(rules, p, buildMode, now);
  }

  /** The first batch that a run records. */
  ghost function FirstBatch(
    rules: Rules, buildMode: string, gate: seq<seq<Outcome>>, attempts: seq<Attempt>): Option<Batch>
    requires WellFormedRules(rules) && AttemptsShaped(rules, attempts)
    requires Shaped(rules.workloadIds, rules.formalLanes, gate)
  {
    var batches := ProtocolResult(rules, buildMode, gate, attempts).batches;
    if batches == [] then None else Some(batches[0])
  }

  lemma FirstBatchIs(
    rules: Rules, buildMode: string, now: int, gate: seq<seq<Outcome>>, attempts: seq<Attempt>)
    requires FairRun(rules, now, gate, attempts) && AllLanesPass(gate)
    ensures FirstBatch(rules, buildMode, gate, attempts) == Some(BatchFor(rules, buildMode, 1, 1, attempts[0]))
  {
    var p := ProducedProtocol(rules, buildMode, now, gate, attempts);
    FirstCollected(rules.maximumReruns, RunOf(rules, buildMode, attempts), p.batches);
    assert RunOf(rules, buildMode, attempts)(1, 1) == BatchAt(rules, buildMode, attempts, 1, 1);
  }

  lemma FirstCollected(limit: nat, run: Run, batches: seq<Batch>)
    requires batches == Collect(limit, run, 0, 0, 0)
    ensures batches != [] && batches[0] == run(1, 1)
  {
  }

  /** `batch` holds one workload, which did not complete, and was invalidated for `reason`. */
  ghost predicate InvalidatedBy(rules: Rules, batch: Batch, workload: WorkloadRecord, reason: string) {
    && batch.workloads == [workload] && workload.status != CompletedCollection
    && batch.status == InvalidatedBatch
    && batch.reasons == [reason] + PairIssues(rules, batch.before, batch.after)
  }

  lemma FirstWorkloadFails(
    rules: Rules, buildMode: string, batchIndex: int, attemptIndex: int, attempt: Attempt, reason: string)
    requires WellFormedRules(rules) && AttemptShaped(rules, attempt) && attempt.before.eligible
    requires var record := RecordOf(
        rules.workloadIds[0], rules.schedule, Context(buildMode, batchIndex, attemptIndex), attempt.runs[0]);
      record.status != CompletedCollection && Raised(attempt.runs[0], record) == Some(reason)
    ensures InvalidatedBy(
      rules, BatchFor(rules, buildMode, batchIndex, attemptIndex, attempt),
      RecordOf(rules.workloadIds[0], rules.schedule, Context(buildMode, batchIndex, attemptIndex), attempt.runs[0]),
      reason)
  {
    var context := Context(buildMode, batchIndex, attemptIndex);
    var records := Records(rules.workloadIds, rules.schedule, context, attempt.runs);
    assert records[0] == RecordOf(rules.workloadIds[0], rules.schedule, context, attempt.runs[0]);
    MeasuredCountIsUnique(records, 1);
    assert Collected(records) == [records[0]];
  }

  // ----- An attempt that takes too long -----

  /** The same attempt, begun more than a day before its end. */
  function Lengthened(attempt: Attempt): Attempt {
    if attempt.finishedAt - attempt.startedAt > DAY then attempt
    else attempt.(startedAt := attempt.finishedAt - DAY - 1)
  }

  /** Had the first attempt of a run been begun a day earlier, and nothing else been different, the run would be
      refused. */
  lemma LongAttemptIsRefused(
    rules: Rules, buildMode: string, now: int, gate: seq<seq<Outcome>>, attempts: seq<Attempt>)
    requires FairRun(rules, now, gate, attempts) && AllLanesPass(gate)
    ensures Refuses(rules, buildMode, now, gate, attempts[0 := Lengthened(attempts[0])])
  {
    ReplacedIsFair(rules, now, gate, attempts, Lengthened(attempts[0]));
    FirstAttemptDecides(rules, buildMode, now, gate, attempts[0 := Lengthened(attempts[0])]);
  }

  // ----- Another run of the first workload -----

  /** The same attempt, with another run of its first workload. */
  function WithFirstRun(attempt: Attempt, run: WorkloadRun): Attempt
    requires attempt.runs != []
  {
    attempt.(runs := attempt.runs[0 := run])
  }

  /** A first workload that does not complete and cannot be presented leaves the batch that says why, and has the
      run refused. */
  lemma FirstRunIsRefused(
    rules: Rules, buildMode: string, now: int, gate: seq<seq<Outcome>>, attempts: seq<Attempt>, run: WorkloadRun,
    reason: string)
    requires FairRun(rules, now, gate, attempts) && AllLanesPass(gate) && attempts[0].before.eligible
    requires FairWorkload(rules.schedule, run, attempts[0].before.capturedAt, attempts[0].after.capturedAt)
    requires RunShaped(rules.schedule, run) && !Presentable(run)
    requires var record := RecordOf(rules.workloadIds[0], rules.schedule, Context(buildMode, 1, 1), run);
      record.status != CompletedCollection && Raised(run, record) == Some(reason)
    ensures var changed := attempts[0 := WithFirstRun(attempts[0], run)];
      && Refuses(rules, buildMode, now, gate, changed)
      && var first := FirstBatch(rules, buildMode, gate, changed);
      && first.Some?
      && InvalidatedBy(
        rules, first.value, RecordOf(rules.workloadIds[0], rules.schedule, Context(buildMode, 1, 1), run), reason)
  {
    var first := WithFirstRun(attempts[0], run);
    var changed := attempts[0 := first];
    assert Fair(rules, now, attempts[0]);
    ReplacedIsFair(rules, now, gate, attempts, first);
    FirstBatchIs(rules, buildMode, now, gate, changed);
    FirstWorkloadFails(rules, buildMode, 1, 1, first, reason);
    assert Reached(first.runs, 0) && first.runs[0] == run;
    FirstAttemptDecides(rules, buildMode, now, gate, changed);
  }

  /** Had the fixture of the first workload been missing, the batch would keep a record that was never started, be
      invalidated for that reason, and the run would be refused. */
  lemma MissingFixtureIsRefused(
    rules: Rules, buildMode: string, now: int, gate: seq<seq<Outcome>>, attempts: seq<Attempt>, reason: string)
    requires FairRun(rules, now, gate, attempts) && AllLanesPass(gate) && attempts[0].before.eligible
    ensures var changed := attempts[0 := WithFirstRun(attempts[0], Unresolved(reason))];
      && Refuses(rules, buildMode, now, gate, changed)
      && var first := FirstBatch(rules, buildMode, gate, changed);
      && first.Some?
      && InvalidatedBy(rules, first.value, NotStartedRecord(rules.workloadIds[0], buildMode), reason)
  {
    FirstRunIsRefused(rules, buildMode, now, gate, attempts, Unresolved(reason), reason);
  }

  /** A run whose first process is killed for its timeout just as it exits with 0. */
  function KilledAtExit(outcomes: seq<Outcome>, message: string, evidence: Evidence): WorkloadRun
    requires outcomes != []
  {
    Resolved(outcomes[0 := SampleError(message, evidence)])
  }

  lemma KilledRunFails(
    id: string, schedule: seq<Row>, context: Context, outcomes: seq<Outcome>, message: string, evidence: Evidence)
    requires IsSchedule(schedule) && |outcomes| == EventCount(schedule)
    ensures var run := KilledAtExit(outcomes, message, evidence);
      && RunShaped(schedule, run)
      && var record := RecordOf(id, schedule, context, run);
      record.status == FailedCollection && Raised(run, record) == Some(message)
  {
    AttemptedIsUnique(outcomes[0 := SampleError(message, evidence)], 1);
  }

  /** Had it been, its timeout would invalidate the batch, and the run would be refused, since a timeout that reports
      a successful exit is not borne out by its evidence. */
  lemma KilledAtExitIsRefused(
    rules: Rules, buildMode: string, now: int, gate: seq<seq<Outcome>>, attempts: seq<Attempt>,
    message: string, evidence: Evidence)
    requires FairRun(rules, now, gate, attempts) && AllLanesPass(gate) && attempts[0].before.eligible
    requires attempts[0].runs[0].Resolved? && message != "" && !evidence.failureBound
    requires attempts[0].before.capturedAt <= evidence.startedAt <= evidence.finishedAt <= attempts[0].after.capturedAt
    ensures var run := KilledAtExit(attempts[0].runs[0].outcomes, message, evidence);
      var changed := attempts[0 := WithFirstRun(attempts[0], run)];
      && Refuses(rules, buildMode, now, gate, changed)
      && var first := FirstBatch(rules, buildMode, gate, changed);
      && first.Some?
      && InvalidatedBy(
        rules, first.value, RecordOf(rules.workloadIds[0], rules.schedule, Context(buildMode, 1, 1), run), message)
  {
    assert FairWorkload(
      rules.schedule, attempts[0].runs[0], attempts[0].before.capturedAt, attempts[0].after.capturedAt);
    var outcomes := attempts[0].runs[0].outcomes;
    var run := KilledAtExit(outcomes, message, evidence);
    KilledRunFails(rules.workloadIds[0], rules.schedule, Context(buildMode, 1, 1), outcomes, message, evidence);
    KilledIsFair(
      rules.schedule, outcomes, message, evidence, attempts[0].before.capturedAt, attempts[0].after.capturedAt);
    FirstRunIsRefused(rules, buildMode, now, gate, attempts, run, message);
  }

  lemma KilledIsFair(
    schedule: seq<Row>, outcomes: seq<Outcome>, message: string, evidence: Evidence, low: int, high: int)
    requires FairWorkload(schedule, Resolved(outcomes), low, high) && outcomes != []
    requires message != "" && !evidence.failureBound
    requires low <= evidence.startedAt <= evidence.finishedAt <= high
    ensures var run := KilledAtExit(outcomes, message, evidence);
      FairWorkload(schedule, run, low, high) && !Presentable(run)
  {
    var changed := outcomes[0 := SampleError(message, evidence)];
    assert !Shown(changed[0]);
  }

  // ----- There are fair runs -----

  const ROW: Row := [Candidate, MainLane, CLane, CppLane, GoLane]

  /** One workload, one formal lane, one rerun, and samples that are always stable and pass. */
  const RULES := Rules(
    [ROW, ROW], ["workload"], ["lane"], 1, "authorization",
    _ => Stability([], ""), _ => Evaluated(true, ""), (_, _) => [], _ => true)

  /** A gate in which the one lane passes. */
  const GATE: seq<seq<Outcome>> := [[Success(Evidence(1, 0, 0, true, false))]]

  /** Every event succeeds, at one moment. */
  function SteadyRun(moment: int): WorkloadRun {
    Resolved(seq(EventCount([ROW, ROW]), _ => Success(Evidence(1, moment, moment, true, false))))
  }

  /** Three attempts in an eligible environment, each a second long and each beginning where the one before it
      ended. */
  function SteadyAttempts(): seq<Attempt> {
    seq(3, k requires 0 <= k < 3 =>
      Attempt(k, Snapshot([['a', 'b', 'c'][k]], true, 0, k, ""), [SteadyRun(k)],
              Snapshot([['d', 'e', 'f'][k]], true, 1, k + 1, ""), k + 1))
  }

  lemma RulesAreWellFormed()
    ensures IsSchedule([ROW, ROW]) && WellFormedRules(RULES)
  {
    forall lane: Lane
      ensures lane in ROW
    {
      match lane
      case Candidate => assert ROW[0] == lane;
      case MainLane => assert ROW[1] == lane;
      case CLane => assert ROW[2] == lane;
      case CppLane => assert ROW[3] == lane;
      case GoLane => assert ROW[4] == lane;
    }
  }

  lemma SteadyAttemptIsFair(k: nat)
    requires k < 3
    ensures Fair(RULES, 3, SteadyAttempts()[k])
  {
    var attempt := SteadyAttempts()[k];
    assert attempt.runs == [SteadyRun(k)];
    assert FairWorkload([ROW, ROW], SteadyRun(k), k, k + 1);
  }

  lemma SnapshotsAreDistinct()
    ensures DistinctSnapshots(SteadyAttempts())
  {
    var attempts := SteadyAttempts();
    forall k | 0 <= k < 3
      ensures attempts[k].before.sha[0] == ['a', 'b', 'c'][k] && attempts[k].after.sha[0] == ['d', 'e', 'f'][k]
    {
    }
  }

  /** So the lemmas above do not speak of nothing. */
  lemma SteadyRunIsFair()
    ensures FairRun(RULES, 3, GATE, SteadyAttempts()) && AllLanesPass(GATE)
    ensures SteadyAttempts()[0].before.eligible && SteadyAttempts()[0].runs[0].Resolved?
  {
    RulesAreWellFormed();
    forall k | 0 <= k < 3
      ensures Fair(RULES, 3, SteadyAttempts()[k])
    {
      SteadyAttemptIsFair(k);
    }
    SnapshotsAreDistinct();
    assert SteadyAttempts()[0].runs == [SteadyRun(0)];
  }

  lemma SteadyAttemptIsAcceptable(k: nat)
    requires k < 3
    ensures Acceptable(SteadyAttempts()[k])
  {
    var attempt := SteadyAttempts()[k];
    assert attempt.runs == [SteadyRun(k)];
    assert attempt.finishedAt - attempt.startedAt == 1;
    assert Presentable(SteadyRun(k));
  }

  /** This run is accepted. */
  lemma SteadyRunIsAccepted(buildMode: string)
    ensures FairRun(RULES, 3, GATE, SteadyAttempts())
    ensures ValidProtocol(RULES, buildMode, 3, ProtocolResult(RULES, buildMode, GATE, SteadyAttempts()))
  {
    SteadyRunIsFair();
    forall a | 0 <= a < 3
      ensures Acceptable(SteadyAttempts()[a])
    {
      SteadyAttemptIsAcceptable(a);
    }
    assert GateShown(GATE);
    RunIsAccepted(RULES, buildMode, 3, GATE, SteadyAttempts());
  }

  /** Each of three changes of its first attempt has it refused. */
  lemma OneChangeDecides(buildMode: string)
    ensures var attempts := SteadyAttempts();
      var missing := Unresolved("fixture is missing");
      var killed := KilledAtExit(attempts[0].runs[0].outcomes, "timeout", Evidence(1, 0, 0, false, false));
      && Refuses(RULES, buildMode, 3, GATE, attempts[0 := Lengthened(attempts[0])])
      && Refuses(RULES, buildMode, 3, GATE, attempts[0 := WithFirstRun(attempts[0], missing)])
      && Refuses(RULES, buildMode, 3, GATE, attempts[0 := WithFirstRun(attempts[0], killed)])
  {
    var attempts := SteadyAttempts();
    SteadyRunIsFair();
    LongAttemptIsRefused(RULES, buildMode, 3, GATE, attempts);
    MissingFixtureIsRefused(RULES, buildMode, 3, GATE, attempts, "fixture is missing");
    KilledAtExitIsRefused(RULES, buildMode, 3, GATE, attempts, "timeout", Evidence(1, 0, 0, false, false));
  }
}
