/** When a measurement may be claimed: the two build modes together. */
module Claims {
  import opened Sampling
  import opened CorrectnessGate
  import opened BatchProtocol
  import opened AttemptHistories
  import opened ProtocolAgreement
  import opened CompleteEvidence
  import opened EvidenceValidation

  const FORMAL_BUILD_MODES: seq<string> := ["release", "emit-c"]

  datatype Aggregate = Aggregate(status: ProtocolStatus, overallVerdict: Verdict, claimEligible: bool)

  ghost predicate HasModes(protocols: map<string, Protocol>) {
    forall mode :: mode in FORMAL_BUILD_MODES ==> mode in protocols
  }

  function AggregateOutcome(protocols: map<string, Protocol>): Aggregate
    requires HasModes(protocols)
  {
    if forall mode :: mode in FORMAL_BUILD_MODES ==> protocols[mode].status == CompletedProtocol then
      var passes := forall mode :: mode in FORMAL_BUILD_MODES ==> protocols[mode].verdict == PassVerdict;
      Aggregate(CompletedProtocol, if passes then PassVerdict else FailVerdict, passes)
    else if exists mode :: mode in FORMAL_BUILD_MODES && protocols[mode].status == IneligibleProtocol then
      Aggregate(IneligibleProtocol, NotEvaluated, false)
    else
      Aggregate(UnavailableProtocol, NotEvaluated, false)
  }

  // ----- Which attempts of a run count -----

  ghost predicate Passes(batch: Batch) {
    batch.status == CompletedBatch && batch.evaluation.Evaluated? && batch.evaluation.passes
  }

  /** Two attempts pass every gate, every other attempt up to the second of them was invalidated, and the second
      comes before the rerun limit is exceeded. */
  ghost predicate TwoPassing(limit: nat, run: Run) {
    exists i, j ::
      && FirstSuccess(limit, run, 1, 1, i) && Passes(run(1, i))
      && FirstSuccess(limit, run, 2, i + 1, j) && Passes(run(2, j))
  }

  ghost predicate AllPass(batches: seq<Batch>, count: nat) {
    CountStatus(batches, CompletedBatch) == count && CompletedBatchesPass(batches)
  }

  lemma FirstAmong(batch: Batch, rest: seq<Batch>, count: nat)
    ensures AllPass([batch] + rest, count) <==>
      if batch.status == CompletedBatch then count > 0 && Passes(batch) && AllPass(rest, count - 1)
      else AllPass(rest, count)
  {
    var all := [batch] + rest;
    CountsOfFirst(batch, rest);
    assert forall b :: 0 <= b < |rest| ==> rest[b] == all[b + 1];
    assert forall b :: 0 < b < |all| ==> all[b] == rest[b - 1];
    assert all[0] == batch;
  }

  lemma NothingAmong(count: nat)
    ensures AllPass([], count) <==> count == 0
  {
  }

  ghost predicate SecondPasses(limit: nat, run: Run, from: int) {
    exists j :: FirstSuccess(limit, run, 2, from, j) && Passes(run(2, j))
  }

  lemma {:induction false} SecondBatch(limit: nat, run: Run, attemptIndex: nat, reruns: nat)
    requires attemptIndex == 1 + reruns && reruns <= limit
    ensures AllPass(Collect(limit, run, 1, attemptIndex, reruns), 1) <==> SecondPasses(limit, run, attemptIndex + 1)
    decreases 2 + limit - attemptIndex
  {
    var a := attemptIndex + 1;
    var batch := run(2, a);
    if batch.status == CompletedBatch {
      FirstAmong(batch, [], 1);
      NothingAmong(0);
      assert FirstSuccess(limit, run, 2, a, a);
      if SecondPasses(limit, run, a) {
        var j :| FirstSuccess(limit, run, 2, a, j) && Passes(run(2, j));
        assert j == a;
      }
    } else if reruns >= limit {
      FirstAmong(batch, [], 1);
      NothingAmong(1);
      assert [batch] + [] == [batch];
    } else {
      SecondBatch(limit, run, attemptIndex + 1, reruns + 1);
      FirstAmong(batch, Collect(limit, run, 1, attemptIndex + 1, reruns + 1), 1);
      Skip(limit, run, a);
    }
  }

  lemma Skip(limit: nat, run: Run, from: int)
    requires run(2, from).status != CompletedBatch
    ensures SecondPasses(limit, run, from) <==> SecondPasses(limit, run, from + 1)
  {
    if SecondPasses(limit, run, from) {
      var j :| FirstSuccess(limit, run, 2, from, j) && Passes(run(2, j));
      assert FirstSuccess(limit, run, 2, from + 1, j);
    }
    if SecondPasses(limit, run, from + 1) {
      var j :| FirstSuccess(limit, run, 2, from + 1, j) && Passes(run(2, j));
      assert FirstSuccess(limit, run, 2, from, j);
    }
  }

  ghost predicate BothPass(limit: nat, run: Run, from: int) {
    exists i :: FirstSuccess(limit, run, 1, from, i) && Passes(run(1, i)) && SecondPasses(limit, run, i + 1)
  }

  lemma SkipFirst(limit: nat, run: Run, from: int)
    requires run(1, from).status != CompletedBatch
    ensures BothPass(limit, run, from) <==> BothPass(limit, run, from + 1)
  {
    if BothPass(limit, run, from) {
      var i :| FirstSuccess(limit, run, 1, from, i) && Passes(run(1, i)) && SecondPasses(limit, run, i + 1);
      assert FirstSuccess(limit, run, 1, from + 1, i);
    }
    if BothPass(limit, run, from + 1) {
      var i :| FirstSuccess(limit, run, 1, from + 1, i) && Passes(run(1, i)) && SecondPasses(limit, run, i + 1);
      assert FirstSuccess(limit, run, 1, from, i);
    }
  }

  lemma {:induction false} BothBatches(limit: nat, run: Run, attemptIndex: nat)
    requires attemptIndex <= limit
    ensures AllPass(Collect(limit, run, 0, attemptIndex, attemptIndex), 2) <==> BothPass(limit, run, attemptIndex + 1)
    decreases 2 + limit - attemptIndex
  {
    var a := attemptIndex + 1;
    var batch := run(1, a);
    if batch.status == CompletedBatch {
      SecondBatch(limit, run, a, attemptIndex);
      FirstAmong(batch, Collect(limit, run, 1, a, attemptIndex), 2);
      assert FirstSuccess(limit, run, 1, a, a);
      if BothPass(limit, run, a) {
        var i :| FirstSuccess(limit, run, 1, a, i) && Passes(run(1, i)) && SecondPasses(limit, run, i + 1);
        assert i == a;
      }
    } else if attemptIndex >= limit {
      FirstAmong(batch, [], 2);
      NothingAmong(2);
      assert [batch] + [] == [batch];
    } else {
      BothBatches(limit, run, a);
      FirstAmong(batch, Collect(limit, run, 0, a, a), 2);
      SkipFirst(limit, run, a);
    }
  }

  /** A run holds two completed batches that both pass exactly if its history of attempts has two such. */
  lemma TwoPassingIff(limit: nat, run: Run)
    ensures AllPass(Collect(limit, run, 0, 0, 0), 2) <==> TwoPassing(limit, run)
  {
    BothBatches(limit, run, 0);
    if BothPass(limit, run, 1) {
      var i :| FirstSuccess(limit, run, 1, 1, i) && Passes(run(1, i)) && SecondPasses(limit, run, i + 1);
      var j :| FirstSuccess(limit, run, 2, i + 1, j) && Passes(run(2, j));
      assert TwoPassing(limit, run);
    }
    if TwoPassing(limit, run) {
      var i, j :|
        && FirstSuccess(limit, run, 1, 1, i) && Passes(run(1, i))
        && FirstSuccess(limit, run, 2, i + 1, j) && Passes(run(2, j));
      assert SecondPasses(limit, run, i + 1);
    }
  }

  // ----- What a completed attempt is -----

  /** Two eligible snapshots, not one taken twice, the second later by the monotonic clock, and nothing else is amiss
      between them. */
  ghost predicate Undisturbed(rules: Rules, before: Snapshot, after: Snapshot) {
    && before.eligible && after.eligible
    && before.sha != after.sha
    && before.monotonicNs < after.monotonicNs
    && rules.otherIssues(before, after) == []
  }

  lemma NoPairIssuesIff(rules: Rules, before: Snapshot, after: Snapshot)
    ensures PairIssues(rules, before, after) == [] <==> Undisturbed(rules, before, after)
  {
    assert !Undisturbed(rules, before, after) ==> |PairIssues(rules, before, after)| > 0;
  }

  /** Every fixture is found and every event succeeds. */
  ghost predicate EveryRunPasses(runs: seq<WorkloadRun>) {
    forall w :: 0 <= w < |runs| ==> runs[w].Resolved? && LanesPass(runs[w].outcomes)
  }

  /** All workloads are measured to the end exactly if none of them fails. */
  lemma CountCompletesIff(runs: seq<WorkloadRun>, records: seq<WorkloadRecord>)
    requires StatusesOf(runs, records)
    ensures var ws := Collected(records);
      (|ws| == |records| && AllComplete(ws, |ws|)) <==> EveryRunPasses(runs)
  {
    var n := MeasuredCount(records);
    MeasuredCountStops(records);
    var ws := Collected(records);
    assert forall w :: 0 <= w < n ==> ws[w] == records[w];
    if |ws| == |records| && AllComplete(ws, |ws|) {
      forall w | 0 <= w < |runs|
        ensures runs[w].Resolved? && LanesPass(runs[w].outcomes)
      {
        assert ws[w].status == StatusOfRun(runs[w]);
      }
    }
    if EveryRunPasses(runs) && n > 0 {
      assert StatusOfRun(runs[n - 1]) == CompletedCollection;
    }
  }

  /** An attempt completes exactly if the environment was eligible and undisturbed throughout, every fixture was
      found, every event of every workload succeeded, and the samples are stable. Success of the events alone can be
      revoked by the second snapshot. */
  lemma AttemptCompletesIff(rules: Rules, buildMode: string, batchIndex: int, attemptIndex: int, attempt: Attempt)
    requires WellFormedRules(rules) && AttemptShaped(rules, attempt)
    ensures var batch := BatchFor(rules, buildMode, batchIndex, attemptIndex, attempt);
      batch.status == CompletedBatch <==>
        && EveryRunPasses(attempt.runs)
        && rules.stability(batch.workloads).issues == []
        && Undisturbed(rules, attempt.before, attempt.after)
  {
    NoPairIssuesIff(rules, attempt.before, attempt.after);
    var context := Context(buildMode, batchIndex, attemptIndex);
    RecordsHaveStatuses(rules.workloadIds, rules.schedule, context, attempt.runs);
    CountCompletesIff(attempt.runs, Records(rules.workloadIds, rules.schedule, context, attempt.runs));
  }

  // ----- The claim -----

  /** What one build mode's run was given. */
  datatype World = World(gate: seq<seq<Outcome>>, attempts: seq<Attempt>)

  /** Gate and attempts report on every lane and event they may be asked for; nothing else is assumed of them. */
  ghost predicate ShapedRun(rules: Rules, gateOutcomes: seq<seq<Outcome>>, attempts: seq<Attempt>) {
    && WellFormedRules(rules)
    && Shaped(rules.workloadIds, rules.formalLanes, gateOutcomes)
    && AttemptsShaped(rules, attempts)
  }

  ghost predicate ShapedWorlds(rules: Rules, worlds: map<string, World>) {
    forall mode :: mode in FORMAL_BUILD_MODES ==>
      mode in worlds && ShapedRun(rules, worlds[mode].gate, worlds[mode].attempts)
  }

  /** `protocols` holds what each build mode's run recorded. */
  ghost predicate Produced(rules: Rules, worlds: map<string, World>, protocols: map<string, Protocol>)
    requires ShapedWorlds(rules, worlds)
  {
    && HasModes(protocols)
    && forall mode :: mode in FORMAL_BUILD_MODES ==>
      protocols[mode] == ProtocolResult(rules, mode, worlds[mode].gate, worlds[mode].attempts)
  }

  lemma ModePassesIff(rules: Rules, mode: string, gateOutcomes: seq<seq<Outcome>>, attempts: seq<Attempt>)
    requires ShapedRun(rules, gateOutcomes, attempts)
    ensures var p := ProtocolResult(rules, mode, gateOutcomes, attempts);
      (p.status == CompletedProtocol && p.verdict == PassVerdict) <==>
        AllLanesPass(gateOutcomes) && TwoPassing(rules.maximumReruns, RunOf(rules, mode, attempts))
  {
    TwoPassingIff(rules.maximumReruns, RunOf(rules, mode, attempts));
    GatePassesIff(rules.workloadIds, mode, rules.formalLanes, gateOutcomes);
  }

  /** Over every history of both build modes: a claim may be made exactly if in each of them every lane of every
      workload was correct, and two attempts completed and passed every gate with only invalidated ones before and
      between them, within the rerun limit. */
  lemma ClaimEligibleIff(rules: Rules, worlds: map<string, World>, protocols: map<string, Protocol>)
    requires ShapedWorlds(rules, worlds) && Produced(rules, worlds, protocols)
    ensures AggregateOutcome(protocols).claimEligible <==>
      forall mode :: mode in FORMAL_BUILD_MODES ==>
        && AllLanesPass(worlds[mode].gate)
        && TwoPassing(rules.maximumReruns, RunOf(rules, mode, worlds[mode].attempts))
  {
    forall mode | mode in FORMAL_BUILD_MODES
      ensures (protocols[mode].status == CompletedProtocol && protocols[mode].verdict == PassVerdict) <==>
        && AllLanesPass(worlds[mode].gate)
        && TwoPassing(rules.maximumReruns, RunOf(rules, mode, worlds[mode].attempts))
    {
      ModePassesIff(rules, mode, worlds[mode].gate, worlds[mode].attempts);
    }
  }

  // ----- Status and verdict of both modes -----

  /** Two attempts complete before the rerun limit is exceeded. */
  ghost predicate TwoComplete(limit: nat, run: Run) {
    exists i, j :: CompleteAt(limit, run, i, j)
  }

  lemma ModeCompletesIff(rules: Rules, mode: string, gateOutcomes: seq<seq<Outcome>>, attempts: seq<Attempt>)
    requires ShapedRun(rules, gateOutcomes, attempts)
    ensures var p := ProtocolResult(rules, mode, gateOutcomes, attempts);
      && (p.status == CompletedProtocol || p.status == IneligibleProtocol)
      && (p.status == CompletedProtocol <==>
        AllLanesPass(gateOutcomes) && TwoComplete(rules.maximumReruns, RunOf(rules, mode, attempts)))
  {
    var run := RunOf(rules, mode, attempts);
    GatePassesIff(rules.workloadIds, mode, rules.formalLanes, gateOutcomes);
    if i, j :| CompleteAt(rules.maximumReruns, run, i, j) {
      CompletedHistory(rules.maximumReruns, run, i, j);
    } else {
      ExhaustedHistory(rules.maximumReruns, run);
    }
  }

  ghost predicate ModesComplete(rules: Rules, worlds: map<string, World>)
    requires ShapedWorlds(rules, worlds)
  {
    forall mode :: mode in FORMAL_BUILD_MODES ==>
      && AllLanesPass(worlds[mode].gate)
      && TwoComplete(rules.maximumReruns, RunOf(rules, mode, worlds[mode].attempts))
  }

  ghost predicate ModesPass(rules: Rules, worlds: map<string, World>)
    requires ShapedWorlds(rules, worlds)
  {
    forall mode :: mode in FORMAL_BUILD_MODES ==>
      && AllLanesPass(worlds[mode].gate)
      && TwoPassing(rules.maximumReruns, RunOf(rules, mode, worlds[mode].attempts))
  }

  /** The outcome of two runs, by their histories: completed exactly if both modes completed two attempts, and
      otherwise ineligible, never unavailable; passed exactly if in both of them two completed attempts passed, failed
      exactly if they completed without all passing, and not evaluated otherwise. */
  lemma OutcomeOfHistories(rules: Rules, worlds: map<string, World>, protocols: map<string, Protocol>)
    requires ShapedWorlds(rules, worlds) && Produced(rules, worlds, protocols)
    ensures var outcome := AggregateOutcome(protocols);
      && outcome.status == (if ModesComplete(rules, worlds) then CompletedProtocol else IneligibleProtocol)
      && outcome.overallVerdict
        == (if ModesPass(rules, worlds) then PassVerdict
            else if ModesComplete(rules, worlds) then FailVerdict
            else NotEvaluated)
      && (outcome.claimEligible <==> outcome.overallVerdict == PassVerdict)
  {
    forall mode | mode in FORMAL_BUILD_MODES
      ensures protocols[mode].status == CompletedProtocol || protocols[mode].status == IneligibleProtocol
      ensures protocols[mode].status == CompletedProtocol <==>
        && AllLanesPass(worlds[mode].gate)
        && TwoComplete(rules.maximumReruns, RunOf(rules, mode, worlds[mode].attempts))
    {
      ModeCompletesIff(rules, mode, worlds[mode].gate, worlds[mode].attempts);
    }
    ClaimEligibleIff(rules, worlds, protocols);
  }

  /** Of other protocols, one ineligible mode makes the outcome ineligible; only without one is it unavailable. */
  lemma UnavailableIff(protocols: map<string, Protocol>)
    requires HasModes(protocols)
    ensures var outcome := AggregateOutcome(protocols);
      && (outcome.status == UnavailableProtocol <==>
        && (exists mode :: mode in FORMAL_BUILD_MODES && protocols[mode].status != CompletedProtocol)
        && (forall mode :: mode in FORMAL_BUILD_MODES ==> protocols[mode].status != IneligibleProtocol))
      && (outcome.status != CompletedProtocol ==> outcome.overallVerdict == NotEvaluated && !outcome.claimEligible)
  {
  }

  // ----- What the validator guarantees of a claim, wherever the evidence came from -----

  /** A completed batch that passed: taken under the authorization at hand, between genuine snapshots, each workload
      as a run without failure leaves it, stable, undisturbed, and evaluated from its own samples. */
  ghost predicate SoundBatch(rules: Rules, mode: string, batch: Batch)
    requires WellFormedRules(rules)
  {
    && batch.authorization == rules.authorization
    && rules.genuine(batch.before) && rules.genuine(batch.after)
    && |batch.workloads| == |rules.workloadIds|
    && (forall w :: 0 <= w < |batch.workloads| ==>
      && batch.workloads[w].id == rules.workloadIds[w]
      && LeftByACompleteRun(
        rules.schedule, Context(mode, batch.batchIndex, batch.attemptIndex), batch.workloads[w]))
    && rules.stability(batch.workloads).issues == []
    && Undisturbed(rules, batch.before, batch.after)
    && batch.evaluation == rules.evaluate(batch.workloads)
    && Passes(batch)
  }

  ghost predicate SoundMode(rules: Rules, mode: string, p: Protocol)
    requires WellFormedRules(rules)
  {
    && LeftByAPassingGate(p.correctness, rules.workloadIds, mode, rules.formalLanes)
    && CountStatus(p.batches, CompletedBatch) == 2
    && forall b :: 0 <= b < |p.batches| && p.batches[b].status == CompletedBatch ==>
      SoundBatch(rules, mode, p.batches[b])
  }

  ghost function SnapshotsOf(batch: Batch): set<string> {
    {batch.before.sha, batch.after.sha}
  }

  /** Before and after a batch, and from one batch to another, in one mode or both, no snapshot is used twice. */
  ghost predicate SnapshotsUsedOnce(protocols: map<string, Protocol>)
    requires HasModes(protocols)
  {
    && (forall mode, b :: mode in FORMAL_BUILD_MODES && 0 <= b < |protocols[mode].batches| ==>
      protocols[mode].batches[b].before.sha != protocols[mode].batches[b].after.sha)
    && forall mode, b, mode', b' ::
      && mode in FORMAL_BUILD_MODES && 0 <= b < |protocols[mode].batches|
      && mode' in FORMAL_BUILD_MODES && 0 <= b' < |protocols[mode'].batches|
      && (mode != mode' || b != b')
      ==> SnapshotsOf(protocols[mode].batches[b]) !! SnapshotsOf(protocols[mode'].batches[b'])
  }


  /** What the schema asks of the workloads of a batch, by their status. */
  ghost predicate BatchSchema(batch: Batch) {
    forall w :: 0 <= w < |batch.workloads| && batch.workloads[w].status == CompletedCollection ==>
      MeasuredSchema(batch.workloads[w])
  }

  ghost predicate BatchesSchema(batches: seq<Batch>) {
    forall b :: 0 <= b < |batches| ==> BatchSchema(batches[b])
  }

  /** The part of the schema that the validator relies on. */
  ghost predicate ProtocolSchema(p: Protocol) {
    GateSchema(p.correctness) && BatchesSchema(p.batches)
  }

  lemma BatchMeetsSchema(rules: Rules, buildMode: string, batchIndex: int, attemptIndex: int, attempt: Attempt)
    requires WellFormedRules(rules) && AttemptShaped(rules, attempt)
    ensures BatchSchema(BatchFor(rules, buildMode, batchIndex, attemptIndex, attempt))
  {
    var context := Context(buildMode, batchIndex, attemptIndex);
    var batch := BatchFor(rules, buildMode, batchIndex, attemptIndex, attempt);
    RecordsHaveStatuses(rules.workloadIds, rules.schedule, context, attempt.runs);
    forall w | 0 <= w < |batch.workloads| && batch.workloads[w].status == CompletedCollection
      ensures MeasuredSchema(batch.workloads[w])
    {
      CompletedRecordMeetsSchema(rules.workloadIds[w], rules.schedule, context, attempt.runs[w]);
    }
  }

  lemma CompletedRecordMeetsSchema(id: string, schedule: seq<Row>, context: Context, run: WorkloadRun)
    requires IsSchedule(schedule) && RunShaped(schedule, run)
    ensures RecordOf(id, schedule, context, run).status == CompletedCollection ==>
      MeasuredSchema(RecordOf(id, schedule, context, run))
  {
    if run.Resolved? && LanesPass(run.outcomes) {
      AttemptedStops(run.outcomes);
      AttemptedIsUnique(run.outcomes, |run.outcomes|);
      CompletedRunMeetsSchema(id, schedule, context, run.outcomes);
    } else if run.Resolved? {
      RecordCompletesIff(id, schedule, context, run.outcomes);
    }
  }

  lemma AttemptsMeetSchema(rules: Rules, mode: string, attempts: seq<Attempt>, run: Run)
    requires WellFormedRules(rules) && AttemptsShaped(rules, attempts) && IsRun(rules, mode, attempts, run)
    ensures forall b, a :: BatchSchema(run(b, a))
  {
    forall b, a
      ensures BatchSchema(run(b, a))
    {
      assert run(b, a) == BatchAt(rules, mode, attempts, b, a);
      BatchMeetsSchema(rules, mode, b, a, attempts[if 1 <= a <= |attempts| then a - 1 else 0]);
    }
  }

  lemma BatchesMeetSchema(limit: nat, run: Run)
    requires forall b, a :: BatchSchema(run(b, a))
    ensures BatchesSchema(Collect(limit, run, 0, 0, 0))
  {
    var batches := Collect(limit, run, 0, 0, 0);
    forall b | 0 <= b < |batches|
      ensures BatchSchema(batches[b])
    {
      CollectAt(limit, run, 0, 0, 0, b);
    }
  }

  lemma CollectedMeetSchema(rules: Rules, mode: string, attempts: seq<Attempt>)
    requires WellFormedRules(rules) && AttemptsShaped(rules, attempts)
    ensures BatchesSchema(Collect(rules.maximumReruns, RunOf(rules, mode, attempts), 0, 0, 0))
  {
    AttemptsMeetSchema(rules, mode, attempts, RunOf(rules, mode, attempts));
    BatchesMeetSchema(rules.maximumReruns, RunOf(rules, mode, attempts));
  }

  /** Every run leaves a record that meets it. */
  lemma RunMeetsSchema(rules: Rules, mode: string, gateOutcomes: seq<seq<Outcome>>, attempts: seq<Attempt>)
    requires ShapedRun(rules, gateOutcomes, attempts)
    ensures ProtocolSchema(ProtocolResult(rules, mode, gateOutcomes, attempts))
  {
    GateMeetsSchema(rules.workloadIds, mode, rules.formalLanes, gateOutcomes);
    CollectedMeetSchema(rules, mode, attempts);
  }

  lemma CompletedIsSound(rules: Rules, mode: string, now: int, batch: Batch, attemptIndex: nat, completed: nat)
    requires WellFormedRules(rules) && ValidBatch(rules, mode, now, batch, attemptIndex, completed)
    requires BatchSchema(batch)
    requires batch.status == CompletedBatch && Passes(batch)
    ensures SoundBatch(rules, mode, batch)
  {
    NoPairIssuesIff(rules, batch.before, batch.after);
    var context := Context(mode, batch.batchIndex, batch.attemptIndex);
    forall w | 0 <= w < |batch.workloads|
      ensures LeftByACompleteRun(rules.schedule, context, batch.workloads[w])
    {
      MeasuredIffLeftByARun(rules.schedule, context, batch.workloads[w]);
    }
  }

  lemma PassedBatchIsSound(rules: Rules, mode: string, now: int, batches: seq<Batch>, b: nat)
    requires WellFormedRules(rules) && ValidBatches(rules, mode, now, batches) && CompletedBatchesPass(batches)
    requires b < |batches| && batches[b].status == CompletedBatch && BatchSchema(batches[b])
    ensures SoundBatch(rules, mode, batches[b])
  {
    CompletedIsSound(rules, mode, now, batches[b], b + 1, CountStatus(batches[..b], CompletedBatch));
  }

  lemma PassedModeIsValid(rules: Rules, mode: string, now: int, p: Protocol)
    requires WellFormedRules(rules) && ValidProtocol(rules, mode, now, p)
    requires p.status == CompletedProtocol && p.verdict == PassVerdict
    ensures ValidCorrectness(p.correctness, rules.workloadIds, mode, rules.formalLanes)
    ensures GatePassed(p.correctness, rules.workloadIds)
    ensures CountStatus(p.batches, CompletedBatch) == 2
    ensures ValidBatches(rules, mode, now, p.batches) && CompletedBatchesPass(p.batches)
  {
  }

  lemma PassedModeIsSound(rules: Rules, mode: string, now: int, p: Protocol)
    requires WellFormedRules(rules) && ProtocolSchema(p) && ValidProtocol(rules, mode, now, p)
    requires p.status == CompletedProtocol && p.verdict == PassVerdict
    ensures SoundMode(rules, mode, p)
  {
    PassedModeIsValid(rules, mode, now, p);
    PassedGateIffLeftByARun(p.correctness, rules.workloadIds, mode, rules.formalLanes);
    forall b | 0 <= b < |p.batches| && p.batches[b].status == CompletedBatch
      ensures SoundBatch(rules, mode, p.batches[b])
    {
      PassedBatchIsSound(rules, mode, now, p.batches, b);
    }
  }

  lemma ClaimNeedsEveryMode(protocols: map<string, Protocol>, mode: string)
    requires HasModes(protocols) && AggregateOutcome(protocols).claimEligible && mode in FORMAL_BUILD_MODES
    ensures protocols[mode].status == CompletedProtocol && protocols[mode].verdict == PassVerdict
  {
  }

  /** The snapshots of the `i`-th build mode. */
  ghost function ShasOf(protocols: map<string, Protocol>, i: nat): set<string>
    requires HasModes(protocols) && i < |FORMAL_BUILD_MODES|
  {
    Shas(protocols[FORMAL_BUILD_MODES[i]].batches)
  }

  ghost predicate DisjointModes(protocols: map<string, Protocol>, n: nat)
    requires HasModes(protocols) && n <= |FORMAL_BUILD_MODES|
  {
    forall i, j :: 0 <= i < j < n ==> ShasOf(protocols, i) !! ShasOf(protocols, j)
  }

  ghost predicate ValidFirst(rules: Rules, now: int, protocols: map<string, Protocol>, n: nat)
    requires WellFormedRules(rules) && HasModes(protocols) && n <= |FORMAL_BUILD_MODES|
  {
    forall i :: 0 <= i < n ==> ValidProtocol(rules, FORMAL_BUILD_MODES[i], now, protocols[FORMAL_BUILD_MODES[i]])
  }

  /** What is accepted of both build modes: each protocol, and no snapshot in both. */
  ghost predicate ValidModes(rules: Rules, now: int, protocols: map<string, Protocol>)
    requires WellFormedRules(rules) && HasModes(protocols)
  {
    ValidFirst(rules, now, protocols, |FORMAL_BUILD_MODES|) && DisjointModes(protocols, |FORMAL_BUILD_MODES|)
  }

  /** The snapshots of the first `n` build modes. */
  ghost function ShasOfFirst(protocols: map<string, Protocol>, n: nat): (r: set<string>)
    requires HasModes(protocols) && n <= |FORMAL_BUILD_MODES|
    ensures forall i :: 0 <= i < n ==> ShasOf(protocols, i) <= r
  {
    if n == 0 then {} else ShasOfFirst(protocols, n - 1) + ShasOf(protocols, n - 1)
  }

  lemma {:induction false} MeetsSome(protocols: map<string, Protocol>, n: nat, seen: set<string>)
    requires HasModes(protocols) && n <= |FORMAL_BUILD_MODES| && ShasOfFirst(protocols, n) * seen != {}
    ensures exists i :: 0 <= i < n && ShasOf(protocols, i) * seen != {}
  {
    if n > 0 && ShasOf(protocols, n - 1) * seen == {} {
      MeetsSome(protocols, n - 1, seen);
    }
  }

  lemma OneMoreMode(protocols: map<string, Protocol>, n: nat)
    requires HasModes(protocols) && n < |FORMAL_BUILD_MODES|
    ensures DisjointModes(protocols, n + 1) <==>
      DisjointModes(protocols, n) && ShasOfFirst(protocols, n) * ShasOf(protocols, n) == {}
  {
    if ShasOfFirst(protocols, n) * ShasOf(protocols, n) != {} {
      MeetsSome(protocols, n, ShasOf(protocols, n));
    }
  }

  method ValidateMode(rules: Rules, now: int, protocols: map<string, Protocol>, i: nat)
    returns (ok: bool, seen: set<string>)
    requires WellFormedRules(rules) && HasModes(protocols) && i < |FORMAL_BUILD_MODES|
    requires ValidFirst(rules, now, protocols, i)
    ensures ok <==> ValidFirst(rules, now, protocols, i + 1)
    ensures !ok ==> !ValidFirst(rules, now, protocols, |FORMAL_BUILD_MODES|)
    ensures ok ==> seen == ShasOf(protocols, i)
  {
    ok, seen := ValidateProtocol(rules, FORMAL_BUILD_MODES[i], now, protocols[FORMAL_BUILD_MODES[i]]);
  }

  /** Both protocols, with the snapshots of the first kept for the second. */
  method ValidateModes(rules: Rules, now: int, protocols: map<string, Protocol>) returns (ok: bool)
    requires WellFormedRules(rules) && HasModes(protocols)
    ensures ok <==> ValidModes(rules, now, protocols)
  {
    var all: set<string> := {};
    var i := 0;
    while i < |FORMAL_BUILD_MODES|
      invariant 0 <= i <= |FORMAL_BUILD_MODES|
      invariant ValidFirst(rules, now, protocols, i) && DisjointModes(protocols, i)
      invariant all == ShasOfFirst(protocols, i)
    {
      var valid, seen := ValidateMode(rules, now, protocols, i);
      if !valid {
        return false;
      }
      OneMoreMode(protocols, i);
      if all * seen != {} {
        return false;
      }
      all := all + seen;
      i := i + 1;
    }
    ok := true;
  }

  lemma SnapshotsAreShas(batches: seq<Batch>, b: nat)
    requires b < |batches|
    ensures SnapshotsOf(batches[b]) <= Shas(batches)
  {
  }

  lemma ValidModesAreFresh(rules: Rules, now: int, protocols: map<string, Protocol>, mode: string)
    requires WellFormedRules(rules) && HasModes(protocols) && ValidModes(rules, now, protocols)
    requires mode in FORMAL_BUILD_MODES
    ensures FreshSnapshots(protocols[mode].batches)
  {
    assert ValidProtocol(rules, mode, now, protocols[mode]);
  }

  lemma ModesShareNothing(protocols: map<string, Protocol>)
    requires HasModes(protocols) && DisjointModes(protocols, |FORMAL_BUILD_MODES|)
    requires forall mode :: mode in FORMAL_BUILD_MODES ==> FreshSnapshots(protocols[mode].batches)
    ensures SnapshotsUsedOnce(protocols)
  {
    forall mode, b, mode', b' |
      && mode in FORMAL_BUILD_MODES && 0 <= b < |protocols[mode].batches|
      && mode' in FORMAL_BUILD_MODES && 0 <= b' < |protocols[mode'].batches|
      && (mode != mode' || b != b')
      ensures SnapshotsOf(protocols[mode].batches[b]) !! SnapshotsOf(protocols[mode'].batches[b'])
    {
      if mode == mode' {
        assert FreshSnapshots(protocols[mode].batches);
      } else {
        assert ShasOf(protocols, 0) !! ShasOf(protocols, 1);
        SnapshotsAreShas(protocols[mode].batches, b);
        SnapshotsAreShas(protocols[mode'].batches, b');
      }
    }
  }

  /** Evidence that meets the schema and is validated supports a claim only if it is sound, whoever wrote it: both
      gates and every completed
      batch are what runs without failure leave, and no snapshot serves twice. */
  lemma ValidatedClaimIsSound(rules: Rules, now: int, protocols: map<string, Protocol>)
    requires WellFormedRules(rules) && HasModes(protocols) && ValidModes(rules, now, protocols)
    requires forall mode :: mode in FORMAL_BUILD_MODES ==> ProtocolSchema(protocols[mode])
    requires AggregateOutcome(protocols).claimEligible
    ensures forall mode :: mode in FORMAL_BUILD_MODES ==> SoundMode(rules, mode, protocols[mode])
    ensures SnapshotsUsedOnce(protocols)
  {
    forall mode | mode in FORMAL_BUILD_MODES
      ensures SoundMode(rules, mode, protocols[mode])
    {
      ClaimNeedsEveryMode(protocols, mode);
      PassedModeIsSound(rules, mode, now, protocols[mode]);
    }
    forall mode | mode in FORMAL_BUILD_MODES
      ensures FreshSnapshots(protocols[mode].batches)
    {
      ValidModesAreFresh(rules, now, protocols, mode);
    }
    ModesShareNothing(protocols);
  }
}
