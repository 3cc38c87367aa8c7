/** Running one workload, and why the validator agrees with whatever the run leaves behind. */
module Measurement {
  import opened Wrappers
  import opened Ordering
  import opened Sampling

  // ----- Spreading samples over lanes and merging them back -----

  lemma OrdinalAt(n: nat, context: Context, outcome: Outcome)
    ensures Ordinal(SampleAt(n, context, outcome)) == n
  {
  }

  lemma OnScheduleAt(schedule: seq<Row>, n: nat, context: Context, outcome: Outcome)
    requires IsSchedule(schedule) && n < EventCount(schedule)
    ensures OnSchedule(schedule, LaneAt(schedule, n), SampleAt(n, context, outcome))
  {
  }

  lemma TaggedInsert(lane: Lane, front: seq<Sample>, back: seq<Sample>, s: Sample)
    ensures multiset(Tagged(lane, front + [s] + back))
         == multiset(Tagged(lane, front + back)) + multiset{Observed(lane, s)}
  {
    assert Tagged(lane, front + [s] + back) == Tagged(lane, front) + [Observed(lane, s)] + Tagged(lane, back);
    assert Tagged(lane, front + back) == Tagged(lane, front) + Tagged(lane, back);
  }

  lemma GatheredBag(warmups: PerLane, samples: PerLane)
    ensures multiset(Gathered(warmups, samples))
         == multiset(OfLane(warmups, samples, Candidate)) + multiset(OfLane(warmups, samples, MainLane))
          + multiset(OfLane(warmups, samples, CLane)) + multiset(OfLane(warmups, samples, CppLane))
          + multiset(OfLane(warmups, samples, GoLane))
  {
  }

  /** One list grew by one sample. */
  ghost predicate Grown(
    warmups: PerLane, samples: PerLane, warmups': PerLane, samples': PerLane, lane: Lane, s: Sample)
  {
    && multiset(OfLane(warmups', samples', lane))
       == multiset(OfLane(warmups, samples, lane)) + multiset{Observed(lane, s)}
    && forall other: Lane :: other != lane ==> OfLane(warmups', samples', other) == OfLane(warmups, samples, other)
  }

  lemma GatheredGrows(
    warmups: PerLane, samples: PerLane, warmups': PerLane, samples': PerLane, lane: Lane, s: Sample)
    requires Grown(warmups, samples, warmups', samples', lane, s)
    ensures multiset(Gathered(warmups', samples')) == multiset(Gathered(warmups, samples)) + multiset{Observed(lane, s)}
  {
    GatheredBag(warmups, samples);
    GatheredBag(warmups', samples');
  }

  lemma TimedGrows(warmups: PerLane, samples: PerLane, lane: Lane, s: Sample)
    ensures Grown(warmups, samples, warmups, samples.Appended(lane, s), lane, s)
  {
    assert warmups.Of(lane) + samples.Appended(lane, s).Of(lane) == warmups.Of(lane) + samples.Of(lane) + [s] + [];
    assert warmups.Of(lane) + samples.Of(lane) + [] == warmups.Of(lane) + samples.Of(lane);
    TaggedInsert(lane, warmups.Of(lane) + samples.Of(lane), [], s);
  }

  lemma WarmupGrows(warmups: PerLane, samples: PerLane, lane: Lane, s: Sample)
    ensures Grown(warmups, samples, warmups.Appended(lane, s), samples, lane, s)
  {
    assert warmups.Appended(lane, s).Of(lane) + samples.Of(lane) == warmups.Of(lane) + [s] + samples.Of(lane);
    TaggedInsert(lane, warmups.Of(lane), samples.Of(lane), s);
  }

  lemma SpreadGrows(events: seq<Observed>, x: Observed, phase: Phase)
    ensures Spread(events + [x], phase)
         == if x.sample.phase == phase then Spread(events, phase).Appended(x.lane, x.sample) else Spread(events, phase)
  {
    assert (events + [x])[..|events|] == events;
  }

  function Regathered(events: seq<Observed>): seq<Observed> {
    Gathered(Spread(events, Warmup), Spread(events, Timed))
  }

  lemma RegatheredGrows(events: seq<Observed>, x: Observed)
    ensures multiset(Regathered(events + [x])) == multiset(Regathered(events)) + multiset{x}
  {
    var warmups, samples := Spread(events, Warmup), Spread(events, Timed);
    SpreadGrows(events, x, Warmup);
    SpreadGrows(events, x, Timed);
    if x.sample.phase == Warmup {
      WarmupGrows(warmups, samples, x.lane, x.sample);
      GatheredGrows(warmups, samples, warmups.Appended(x.lane, x.sample), samples, x.lane, x.sample);
    } else {
      TimedGrows(warmups, samples, x.lane, x.sample);
      GatheredGrows(warmups, samples, warmups, samples.Appended(x.lane, x.sample), x.lane, x.sample);
    }
  }

  lemma NothingToRegather()
    ensures Regathered([]) == []
  {
    forall lane: Lane
      ensures OfLane(NO_SAMPLES, NO_SAMPLES, lane) == []
    {
      assert NO_SAMPLES.Of(lane) == [];
    }
  }

  /** No sample is lost or duplicated by spreading. */
  lemma {:induction false} RegatheredIsTaken(events: seq<Observed>) returns (bag: multiset<Observed>)
    ensures bag == multiset(Regathered(events)) == multiset(events)
  {
    if events == [] {
      NothingToRegather();
      bag := multiset{};
    } else {
      var n := |events| - 1;
      assert events == events[..n] + [events[n]];
      bag := RegatheredIsTaken(events[..n]);
      RegatheredGrows(events[..n], events[n]);
      bag := bag + multiset{events[n]};
    }
  }

  lemma EarlierIsTotalPreorder()
    ensures TotalPreorder(EarlierOrSame)
  {
  }

  /** The lane lists, merged and sorted by ordinal, are the event prefix that was run. */
  lemma MergedIsTaken(schedule: seq<Row>, context: Context, outcomes: seq<Outcome>, n: nat)
    requires IsSchedule(schedule) && n <= EventCount(schedule) && n <= |outcomes|
    ensures var taken := Taken(schedule, context, outcomes, n);
      Sort(EarlierOrSame, Regathered(taken)) == taken
  {
    var taken := Taken(schedule, context, outcomes, n);
    var gathered := Regathered(taken);
    TakenAt(schedule, context, outcomes, n);
    forall i | 0 <= i < n
      ensures Ordinal(taken[i].sample) == i
    {
      OrdinalAt(i, context, outcomes[i]);
    }
    var _ := RegatheredIsTaken(taken);
    EarlierIsTotalPreorder();
    SortIsSorted(EarlierOrSame, gathered);
    SortedArrangementIsUnique(EarlierOrSame, taken, Sort(EarlierOrSame, gathered));
  }

  // ----- The evidence after a run -----

  /** The record once the first `n` events have been taken. */
  function RecordAfter(
    id: string, schedule: seq<Row>, context: Context, outcomes: seq<Outcome>, n: nat): WorkloadRecord
    requires IsSchedule(schedule) && n <= EventCount(schedule) && n <= |outcomes|
  {
    var lists := ListsAfter(schedule, context, outcomes, n);
    var failed := n > 0 && !outcomes[n - 1].Success?;
    WorkloadRecord(
      id, context.buildMode, schedule[..2], lists.warmups, lists.samples,
      Blocks(schedule, BlocksStarted(schedule, n)),
      if failed then FailedCollection else CompletedCollection,
      if failed then Some(StatusOf(outcomes[n - 1]).message) else None)
  }

  /** A failed run is filed with the collector's own message, or under a prefix with that of another exception. */
  lemma FailureIsNamed(id: string, schedule: seq<Row>, context: Context, outcomes: seq<Outcome>, n: nat)
    requires IsSchedule(schedule) && 0 < n <= EventCount(schedule) && n <= |outcomes|
    ensures RecordAfter(id, schedule, context, outcomes, n).failureReason
      == match outcomes[n - 1]
         case Success(_) => None
         case SampleError(message, _) => Some(message)
         case OtherError(message, _) => Some("collector failed before producing a sample: " + message)
  {
  }

  lemma TakenHasFailedTail(schedule: seq<Row>, context: Context, outcomes: seq<Outcome>, n: nat)
    requires IsSchedule(schedule) && StopsAt(schedule, outcomes, n)
    requires n > 0 && !outcomes[n - 1].Success?
    ensures FailedTail(Taken(schedule, context, outcomes, n))
  {
    var taken := Taken(schedule, context, outcomes, n);
    TakenAt(schedule, context, outcomes, n);
    forall i | 0 <= i < n
      ensures Ordinal(taken[i].sample) == i
    {
      OrdinalAt(i, context, outcomes[i]);
    }
  }

  /** An event of a failed run is accounted for exactly if its evidence bears it out. */
  lemma EventIsAccountedIff(schedule: seq<Row>, context: Context, outcomes: seq<Outcome>, n: nat, i: nat)
    requires IsSchedule(schedule) && StopsAt(schedule, outcomes, n) && i < n
    requires !outcomes[n - 1].Success?
    ensures Accounted(
      schedule, context, Some(StatusOf(outcomes[n - 1]).message), EventAt(schedule, context, outcomes, i))
      <==> Shown(outcomes[i])
  {
    OnScheduleAt(schedule, i, context, outcomes[i]);
  }

  lemma EachAccountedAt(schedule: seq<Row>, context: Context, reason: Option<string>, events: seq<Observed>)
    requires IsSchedule(schedule)
    ensures EachAccounted(schedule, context, reason, events)
      <==> forall i :: 0 <= i < |events| ==> Accounted(schedule, context, reason, events[i])
  {
    if EachAccounted(schedule, context, reason, events) {
      forall i | 0 <= i < |events|
        ensures Accounted(schedule, context, reason, events[i])
      {
        assert events[i] in events;
      }
    }
  }

  lemma TakenAreAccountedIff(schedule: seq<Row>, context: Context, outcomes: seq<Outcome>, n: nat)
    requires IsSchedule(schedule) && StopsAt(schedule, outcomes, n)
    requires n > 0 && !outcomes[n - 1].Success?
    ensures EachAccounted(
        schedule, context, Some(StatusOf(outcomes[n - 1]).message), Taken(schedule, context, outcomes, n))
      <==> AllShown(outcomes, n)
  {
    var taken, reason := Taken(schedule, context, outcomes, n), Some(StatusOf(outcomes[n - 1]).message);
    TakenAt(schedule, context, outcomes, n);
    EachAccountedAt(schedule, context, reason, taken);
    forall i | 0 <= i < n
      ensures Accounted(schedule, context, reason, taken[i]) <==> Shown(outcomes[i])
    {
      EventIsAccountedIff(schedule, context, outcomes, n, i);
    }
  }

  lemma TakenIsAcceptedIff(id: string, schedule: seq<Row>, context: Context, outcomes: seq<Outcome>, n: nat)
    requires IsSchedule(schedule) && StopsAt(schedule, outcomes, n)
    requires n > 0 && !outcomes[n - 1].Success?
    ensures AcceptsEvents(
      schedule, context, RecordAfter(id, schedule, context, outcomes, n), Taken(schedule, context, outcomes, n))
      <==> AllShown(outcomes, n)
  {
    TakenHasFailedTail(schedule, context, outcomes, n);
    TakenAreAccountedIff(schedule, context, outcomes, n);
    LastExplained(schedule, context, Taken(schedule, context, outcomes, n), outcomes);
    BlocksByIndex(schedule, n - 1, context, outcomes[n - 1]);
  }

  /** At whatever event a run fails, the validator accepts the evidence, if and only if every event taken is borne
      out by its evidence. */
  lemma FailedRunIsValidIff(id: string, schedule: seq<Row>, context: Context, outcomes: seq<Outcome>, n: nat)
    requires IsSchedule(schedule) && StopsAt(schedule, outcomes, n) && Outspoken(outcomes)
    requires n > 0 && !outcomes[n - 1].Success?
    ensures ValidPartial(schedule, context, RecordAfter(id, schedule, context, outcomes, n)) <==> AllShown(outcomes, n)
  {
    var r := RecordAfter(id, schedule, context, outcomes, n);
    ListsAreSpread(schedule, context, outcomes, n);
    MergedIsTaken(schedule, context, outcomes, n);
    TakenIsAcceptedIff(id, schedule, context, outcomes, n);
    assert Merged(r) == Taken(schedule, context, outcomes, n);
  }

  // ----- Accepted evidence comes from some run -----

  /** A sample on the schedule is determined by its number, its status and its evidence. */
  lemma NumberDeterminesEvent(schedule: seq<Row>, context: Context, x: Observed, n: nat)
    requires IsSchedule(schedule) && OnSchedule(schedule, x.lane, x.sample)
    requires x.sample.context == context && Ordinal(x.sample) == n
    ensures n < EventCount(schedule)
    ensures x == Observed(LaneAt(schedule, n),
      Sample(PhaseAt(n), IndexAt(n), n % 5 + 1, context, x.sample.status, x.sample.evidence))
  {
    var s := x.sample;
    var row := if s.phase == Warmup then s.index - 1 else s.index + 1;
    assert n == 5 * row + (s.position - 1);
    assert n / 5 == row && n % 5 == s.position - 1;
  }

  function OutcomeOf(s: Sample): Outcome {
    match s.status
    case Passed => Success(s.evidence)
    case Failed(message) => SampleError(message, s.evidence)
  }

  /** The outcomes that explain `events`, continued at will. */
  function Explanation(events: seq<Observed>, count: nat, rest: Evidence): (r: seq<Outcome>)
    requires |events| <= count
    ensures |r| == count && forall i :: 0 <= i < |events| ==> r[i] == OutcomeOf(events[i].sample)
    ensures forall i :: |events| <= i < count ==> r[i] == Success(rest)
  {
    seq(count, i requires 0 <= i < count => if i < |events| then OutcomeOf(events[i].sample) else Success(rest))
  }

  /** What the outcome of its event explains of an accounted sample. */
  lemma ExplainedEvent(
    schedule: seq<Row>, context: Context, reason: Option<string>, x: Observed, n: nat, outcomes: seq<Outcome>)
    requires IsSchedule(schedule) && Accounted(schedule, context, reason, x) && Ordinal(x.sample) == n
    requires n < |outcomes| && outcomes[n] == OutcomeOf(x.sample)
    ensures n < EventCount(schedule) && EventAt(schedule, context, outcomes, n) == x
  {
    NumberDeterminesEvent(schedule, context, x, n);
  }

  ghost predicate ExplainedAt(
    schedule: seq<Row>, context: Context, events: seq<Observed>, outcomes: seq<Outcome>, i: nat)
    requires IsSchedule(schedule) && i < |events| && i < EventCount(schedule) && i < |outcomes|
  {
    EventAt(schedule, context, outcomes, i) == events[i]
  }

  lemma SameAsTaken(schedule: seq<Row>, context: Context, events: seq<Observed>, outcomes: seq<Outcome>)
    requires IsSchedule(schedule) && |events| <= EventCount(schedule) && |events| <= |outcomes|
    requires forall i :: 0 <= i < |events| ==> ExplainedAt(schedule, context, events, outcomes, i)
    ensures Taken(schedule, context, outcomes, |events|) == events
  {
    TakenAt(schedule, context, outcomes, |events|);
    var taken := Taken(schedule, context, outcomes, |events|);
    forall i | 0 <= i < |events|
      ensures taken[i] == events[i]
    {
      assert ExplainedAt(schedule, context, events, outcomes, i);
    }
  }

  /** A gapless list of accounted events is what some run takes. */
  lemma EventsAreTaken(
    schedule: seq<Row>, context: Context, reason: Option<string>, events: seq<Observed>, outcomes: seq<Outcome>)
    requires IsSchedule(schedule) && |events| <= EventCount(schedule) && |events| <= |outcomes|
    requires forall i :: 0 <= i < |events| ==>
      && Accounted(schedule, context, reason, events[i])
      && Ordinal(events[i].sample) == i
      && outcomes[i] == OutcomeOf(events[i].sample)
    ensures Taken(schedule, context, outcomes, |events|) == events
  {
    forall i | 0 <= i < |events|
      ensures ExplainedAt(schedule, context, events, outcomes, i)
    {
      ExplainedEvent(schedule, context, reason, events[i], i, outcomes);
    }
    SameAsTaken(schedule, context, events, outcomes);
  }

  lemma EventsAreFew(schedule: seq<Row>, context: Context, reason: Option<string>, events: seq<Observed>)
    requires IsSchedule(schedule) && events != []
    requires Accounted(schedule, context, reason, events[|events| - 1])
    requires Ordinal(events[|events| - 1].sample) == |events| - 1
    ensures |events| <= EventCount(schedule)
  {
    NumberDeterminesEvent(schedule, context, events[|events| - 1], |events| - 1);
  }

  lemma ExplanationStops(schedule: seq<Row>, events: seq<Observed>, outcomes: seq<Outcome>)
    requires FailedTail(events) && |events| <= EventCount(schedule) == |outcomes|
    requires forall i :: 0 <= i < |events| ==> outcomes[i] == OutcomeOf(events[i].sample)
    ensures StopsAt(schedule, outcomes, |events|) && !outcomes[|events| - 1].Success?
  {
    assert events[|events| - 1].sample.status.Failed?;
  }

  lemma LastExplained(schedule: seq<Row>, context: Context, events: seq<Observed>, outcomes: seq<Outcome>)
    requires IsSchedule(schedule) && 0 < |events| <= EventCount(schedule) && |events| <= |outcomes|
    requires Taken(schedule, context, outcomes, |events|) == events
    ensures events[|events| - 1] == EventAt(schedule, context, outcomes, |events| - 1)
  {
  }

  /** The blocks begun by the last event are those its index tells. */
  lemma BlocksByIndex(schedule: seq<Row>, n: nat, context: Context, outcome: Outcome)
    requires IsSchedule(schedule) && n < EventCount(schedule)
    ensures var s := SampleAt(n, context, outcome);
      BlocksStarted(schedule, n + 1) == if s.phase == Timed then s.index else 0
  {
  }

  /** The record of the run that explains accepted evidence differs from it at most in the order within lists. */
  lemma ExplainedRecord(
    schedule: seq<Row>, context: Context, r: WorkloadRecord, events: seq<Observed>, outcomes: seq<Outcome>)
    requires IsSchedule(schedule) && PartialHeader(schedule, context, r)
    requires AcceptsEvents(schedule, context, r, events) && |events| <= EventCount(schedule) == |outcomes|
    requires Taken(schedule, context, outcomes, |events|) == events
    requires StopsAt(schedule, outcomes, |events|) && !outcomes[|events| - 1].Success?
    ensures var run := RecordAfter(r.id, schedule, context, outcomes, |events|);
      run == r.(warmups := run.warmups, samples := run.samples)
  {
    LastIsAccounted(schedule, context, r, events);
    LastExplained(schedule, context, events, outcomes);
    FailedRecordIs(r, schedule, context, outcomes, |events|);
  }

  lemma FailedRecordIs(r: WorkloadRecord, schedule: seq<Row>, context: Context, outcomes: seq<Outcome>, n: nat)
    requires IsSchedule(schedule) && 0 < n <= EventCount(schedule) && n <= |outcomes| && !outcomes[n - 1].Success?
    requires PartialHeader(schedule, context, r)
    requires var s := SampleAt(n - 1, context, outcomes[n - 1]);
      && r.failureReason == Some(s.status.message)
      && r.blockSchedule == if s.phase == Timed then Blocks(schedule, s.index) else []
    ensures var run := RecordAfter(r.id, schedule, context, outcomes, n);
      run == r.(warmups := run.warmups, samples := run.samples)
  {
    BlocksByIndex(schedule, n - 1, context, outcomes[n - 1]);
  }

  /** The last event carries the reason and tells the blocks. */
  lemma LastIsAccounted(schedule: seq<Row>, context: Context, r: WorkloadRecord, events: seq<Observed>)
    requires IsSchedule(schedule) && AcceptsEvents(schedule, context, r, events)
    ensures var s := events[|events| - 1].sample;
      && s.status.Failed? && r.failureReason == Some(s.status.message)
      && (s.phase == Timed ==> s.index <= |schedule| && s.index >= 0)
      && r.blockSchedule == if s.phase == Timed then Blocks(schedule, s.index) else []
  {
    var last := events[|events| - 1];
    assert last in events;
    assert Accounted(schedule, context, r.failureReason, last);
  }

  /** Evidence the partial validator accepts is, up to the order within lists, what some failing run leaves. */
  lemma AcceptedEvidenceIsARun(schedule: seq<Row>, context: Context, r: WorkloadRecord) returns (outcomes: seq<Outcome>)
    requires IsSchedule(schedule) && ValidPartial(schedule, context, r)
    ensures var n := |Merged(r)|;
      && |outcomes| == EventCount(schedule)
      && StopsAt(schedule, outcomes, n)
      && AllShown(outcomes, n)
      && Merged(r) == Taken(schedule, context, outcomes, n)
      && n > 0 && (forall i :: n <= i < |outcomes| ==> outcomes[i] == Success(outcomes[n - 1].evidence))
      && var run := RecordAfter(r.id, schedule, context, outcomes, n);
      && Merged(run) == Merged(r)
      && run == r.(warmups := run.warmups, samples := run.samples)
  {
    var events := Merged(r);
    outcomes := ExplainEvents(schedule, context, r, events);
    ExplainedRecord(schedule, context, r, events, outcomes);
    ListsAreSpread(schedule, context, outcomes, |events|);
    MergedIsTaken(schedule, context, outcomes, |events|);
  }

  lemma ExplanationIsShown(
    schedule: seq<Row>, context: Context, reason: Option<string>, events: seq<Observed>, outcomes: seq<Outcome>)
    requires IsSchedule(schedule) && |events| <= |outcomes|
    requires forall i :: 0 <= i < |events| ==> Accounted(schedule, context, reason, events[i])
    requires forall i :: 0 <= i < |events| ==> outcomes[i] == OutcomeOf(events[i].sample)
    ensures AllShown(outcomes, |events|)
  {
    forall i | 0 <= i < |events|
      ensures Shown(outcomes[i])
    {
      assert Accounted(schedule, context, reason, events[i]);
    }
  }

  lemma ExplainEvents(schedule: seq<Row>, context: Context, r: WorkloadRecord, events: seq<Observed>)
    returns (outcomes: seq<Outcome>)
    requires IsSchedule(schedule) && AcceptsEvents(schedule, context, r, events)
    ensures |events| <= EventCount(schedule) == |outcomes|
    ensures Taken(schedule, context, outcomes, |events|) == events
    ensures StopsAt(schedule, outcomes, |events|) && !outcomes[|events| - 1].Success?
    ensures AllShown(outcomes, |events|)
    ensures forall i :: |events| <= i < |outcomes| ==> outcomes[i] == Success(outcomes[|events| - 1].evidence)
  {
    var last := events[|events| - 1];
    EachAccountedAt(schedule, context, r.failureReason, events);
    EventsAreFew(schedule, context, r.failureReason, events);
    outcomes := Explanation(events, EventCount(schedule), last.sample.evidence);
    EventsAreTaken(schedule, context, r.failureReason, events, outcomes);
    ExplanationStops(schedule, events, outcomes);
    ExplanationIsShown(schedule, context, r.failureReason, events, outcomes);
  }

  // ----- Runs that complete -----

  lemma {:induction false} ShareConcat(a: seq<Observed>, b: seq<Observed>, phase: Phase, lane: Lane)
    ensures Share(a + b, phase, lane) == Share(a, phase, lane) + Share(b, phase, lane)
    decreases |b|
  {
    if b == [] {
      assert a + b == a;
    } else {
      var n := |b| - 1;
      assert (a + b)[..|a| + n] == a + b[..n];
      ShareConcat(a, b[..n], phase, lane);
    }
  }

  lemma {:induction false} ShareComesFromEvents(events: seq<Observed>, phase: Phase, lane: Lane, s: Sample)
    requires s in Share(events, phase, lane)
    ensures exists n :: 0 <= n < |events| && events[n].sample == s
  {
    var n := |events| - 1;
    if s in Share(events[..n], phase, lane) {
      ShareComesFromEvents(events[..n], phase, lane, s);
      var i :| 0 <= i < n && events[..n][i].sample == s;
      assert events[i].sample == s;
    } else {
      assert events[n].sample == s;
    }
  }

  /** A lane that occurs once among events of one phase gets one sample. */
  lemma {:induction false} ShareOfRow(events: seq<Observed>, phase: Phase, lane: Lane, at: nat, of: Phase)
    requires forall j :: 0 <= j < |events| ==> events[j].sample.phase == of && (events[j].lane == lane <==> j == at)
    ensures Share(events, phase, lane) == if phase == of && at < |events| then [events[at].sample] else []
    decreases |events|
  {
    if events != [] {
      ShareOfRow(events[..|events| - 1], phase, lane, at, of);
    }
  }

  function RowEvents(schedule: seq<Row>, context: Context, outcomes: seq<Outcome>, row: nat): (r: seq<Observed>)
    requires IsSchedule(schedule) && row < 2 + |schedule| && EventCount(schedule) <= |outcomes|
    ensures |r| == 5
  {
    seq(5, j requires 0 <= j < 5 =>
      Observed(RowAt(schedule, row)[j], SampleAt(5 * row + j, context, outcomes[5 * row + j])))
  }

  lemma RowEventIs(schedule: seq<Row>, context: Context, outcomes: seq<Outcome>, row: nat, j: nat)
    requires IsSchedule(schedule) && row < 2 + |schedule| && EventCount(schedule) <= |outcomes| && j < 5
    ensures RowEvents(schedule, context, outcomes, row)[j] == EventAt(schedule, context, outcomes, 5 * row + j)
  {
    RowDivision(row, j);
  }

  lemma TakenAfterRow(schedule: seq<Row>, context: Context, outcomes: seq<Outcome>, row: nat)
    requires IsSchedule(schedule) && row < 2 + |schedule| && EventCount(schedule) <= |outcomes|
    ensures Taken(schedule, context, outcomes, 5 * row + 5)
         == Taken(schedule, context, outcomes, 5 * row) + RowEvents(schedule, context, outcomes, row)
  {
    var more := RowEvents(schedule, context, outcomes, row);
    forall j | 0 <= j < 5
      ensures more[j] == EventAt(schedule, context, outcomes, 5 * row + j)
    {
      RowEventIs(schedule, context, outcomes, row, j);
    }
    TakenFive(schedule, context, outcomes, 5 * row, more);
  }

  lemma TakenFive(schedule: seq<Row>, context: Context, outcomes: seq<Outcome>, n: nat, more: seq<Observed>)
    requires IsSchedule(schedule) && n + 5 <= EventCount(schedule) <= |outcomes|
    requires |more| == 5 && forall j :: 0 <= j < 5 ==> more[j] == EventAt(schedule, context, outcomes, n + j)
    ensures Taken(schedule, context, outcomes, n + 5) == Taken(schedule, context, outcomes, n) + more
  {
    var x, y := Taken(schedule, context, outcomes, n), Taken(schedule, context, outcomes, n + 5);
    TakenAt(schedule, context, outcomes, n);
    TakenAt(schedule, context, outcomes, n + 5);
    assert forall i :: 0 <= i < n ==> y[i] == x[i];
    assert forall j :: 0 <= j < 5 ==> y[n + j] == more[j];
  }

  ghost predicate AllSucceed(outcomes: seq<Outcome>) {
    forall i :: 0 <= i < |outcomes| ==> outcomes[i].Success? && outcomes[i].evidence.bound
  }

  /** The sample a lane gets from a row: of the row's phase, index and place. */
  lemma RowEventShape(schedule: seq<Row>, context: Context, outcomes: seq<Outcome>, row: nat, j: nat)
    requires IsSchedule(schedule) && row < 2 + |schedule| && j < 5
    requires EventCount(schedule) <= |outcomes| && AllSucceed(outcomes)
    ensures var x := RowEvents(schedule, context, outcomes, row)[j];
      && x.lane == RowAt(schedule, row)[j]
      && x.sample.evidence.bound
      && x.sample == Sample(
        if row < 2 then Warmup else Timed, if row < 2 then row + 1 else row - 1, j + 1, context, Passed,
        x.sample.evidence)
  {
    var n := 5 * row + j;
    RowDivision(row, j);
    assert n < |outcomes| && outcomes[n].Success? && outcomes[n].evidence.bound;
    var x := RowEvents(schedule, context, outcomes, row)[j];
    assert x == Observed(RowAt(schedule, row)[j], SampleAt(n, context, outcomes[n]));
  }

  lemma RowDivision(row: nat, j: nat)
    requires j < 5
    ensures (5 * row + j) / 5 == row && (5 * row + j) % 5 == j
  {
  }

  lemma RowShare(
    schedule: seq<Row>, context: Context, outcomes: seq<Outcome>, row: nat, lane: Lane, phase: Phase)
    requires IsSchedule(schedule) && row < 2 + |schedule|
    requires EventCount(schedule) <= |outcomes| && AllSucceed(outcomes)
    ensures var events := RowEvents(schedule, context, outcomes, row);
      Share(events, phase, lane) == if phase == (if row < 2 then Warmup else Timed)
        then [events[PositionOf(RowAt(schedule, row), lane)].sample] else []
  {
    var events := RowEvents(schedule, context, outcomes, row);
    var here := RowAt(schedule, row);
    var at := PositionOf(here, lane);
    forall j | 0 <= j < 5
      ensures events[j].sample.phase == (if row < 2 then Warmup else Timed) && (events[j].lane == lane <==> j == at)
    {
      RowEventShape(schedule, context, outcomes, row, j);
    }
    ShareOfRow(events, phase, lane, at, if row < 2 then Warmup else Timed);
  }

  lemma InPlaceGrows(
    schedule: seq<Row>, context: Context, phase: Phase, lane: Lane, list: seq<Sample>, rows: nat, s: Sample)
    requires IsSchedule(schedule) && rows < |schedule|
    requires InPlace(schedule, context, phase, lane, list, rows)
    requires s == Sample(phase, rows + 1, PositionOf(schedule[rows], lane) + 1, context, Passed, s.evidence)
    requires s.evidence.bound
    ensures InPlace(schedule, context, phase, lane, list + [s], rows + 1)
  {
  }

  /** After `rows` orders each lane has one sample of each, in its place. */
  ghost predicate ListsInPlace(
    schedule: seq<Row>, context: Context, rows: nat, lane: Lane, warmups: seq<Sample>, samples: seq<Sample>)
    requires IsSchedule(schedule) && rows <= 2 + |schedule|
  {
    && InPlace(schedule, context, Warmup, lane, warmups, if rows < 2 then rows else 2)
    && InPlace(schedule, context, Timed, lane, samples, if rows < 2 then 0 else rows - 2)
  }

  lemma ListsGrow(
    schedule: seq<Row>, context: Context, outcomes: seq<Outcome>, row: nat, lane: Lane,
    warmups: seq<Sample>, samples: seq<Sample>)
    requires IsSchedule(schedule) && row < 2 + |schedule|
    requires EventCount(schedule) <= |outcomes| && AllSucceed(outcomes)
    requires ListsInPlace(schedule, context, row, lane, warmups, samples)
    ensures var events := RowEvents(schedule, context, outcomes, row);
      ListsInPlace(
        schedule, context, row + 1, lane, warmups + Share(events, Warmup, lane), samples + Share(events, Timed, lane))
  {
    var at := PositionOf(RowAt(schedule, row), lane);
    var s := RowEvents(schedule, context, outcomes, row)[at].sample;
    RowEventShape(schedule, context, outcomes, row, at);
    RowShare(schedule, context, outcomes, row, lane, Warmup);
    RowShare(schedule, context, outcomes, row, lane, Timed);
    if row < 2 {
      assert samples + [] == samples;
      InPlaceGrows(schedule, context, Warmup, lane, warmups, row, s);
    } else {
      assert warmups + [] == warmups;
      InPlaceGrows(schedule, context, Timed, lane, samples, row - 2, s);
    }
  }

  /** The lists of one lane after `n` events. */
  function WarmupsAfter(schedule: seq<Row>, context: Context, outcomes: seq<Outcome>, n: nat, lane: Lane): seq<Sample>
    requires IsSchedule(schedule) && n <= EventCount(schedule) && n <= |outcomes|
  {
    Share(Taken(schedule, context, outcomes, n), Warmup, lane)
  }

  function SamplesAfter(schedule: seq<Row>, context: Context, outcomes: seq<Outcome>, n: nat, lane: Lane): seq<Sample>
    requires IsSchedule(schedule) && n <= EventCount(schedule) && n <= |outcomes|
  {
    Share(Taken(schedule, context, outcomes, n), Timed, lane)
  }

  lemma ListsAfterRow(schedule: seq<Row>, context: Context, outcomes: seq<Outcome>, row: nat, n: nat, lane: Lane)
    requires IsSchedule(schedule) && row < 2 + |schedule| && EventCount(schedule) <= |outcomes|
    requires n == 5 * row + 5
    ensures var events := RowEvents(schedule, context, outcomes, row);
      && WarmupsAfter(schedule, context, outcomes, n, lane)
        == WarmupsAfter(schedule, context, outcomes, n - 5, lane) + Share(events, Warmup, lane)
      && SamplesAfter(schedule, context, outcomes, n, lane)
        == SamplesAfter(schedule, context, outcomes, n - 5, lane) + Share(events, Timed, lane)
  {
    var before, more := Taken(schedule, context, outcomes, 5 * row), RowEvents(schedule, context, outcomes, row);
    TakenAfterRow(schedule, context, outcomes, row);
    ShareConcat(before, more, Warmup, lane);
    ShareConcat(before, more, Timed, lane);
  }

  /** The first `n` events, `rows` orders, leave the lists of the lane in place. */
  ghost predicate RowsPlaced(
    schedule: seq<Row>, context: Context, outcomes: seq<Outcome>, rows: nat, n: nat, lane: Lane)
    requires IsSchedule(schedule) && rows <= 2 + |schedule| && n <= EventCount(schedule) && n <= |outcomes|
  {
    ListsInPlace(
      schedule, context, rows, lane,
      WarmupsAfter(schedule, context, outcomes, n, lane), SamplesAfter(schedule, context, outcomes, n, lane))
  }

  lemma OneMoreRowPlaced(
    schedule: seq<Row>, context: Context, outcomes: seq<Outcome>, row: nat, n: nat, lane: Lane)
    requires IsSchedule(schedule) && row < 2 + |schedule| && n == 5 * row + 5
    requires EventCount(schedule) <= |outcomes| && AllSucceed(outcomes)
    requires RowsPlaced(schedule, context, outcomes, row, n - 5, lane)
    ensures RowsPlaced(schedule, context, outcomes, row + 1, n, lane)
  {
    ListsGrow(
      schedule, context, outcomes, row, lane,
      WarmupsAfter(schedule, context, outcomes, n - 5, lane), SamplesAfter(schedule, context, outcomes, n - 5, lane));
    ListsAfterRow(schedule, context, outcomes, row, n, lane);
  }

  lemma {:induction false} RowsArePlaced(
    schedule: seq<Row>, context: Context, outcomes: seq<Outcome>, rows: nat, n: nat, lane: Lane)
    requires IsSchedule(schedule) && rows <= 2 + |schedule| && n == 5 * rows
    requires EventCount(schedule) <= |outcomes| && AllSucceed(outcomes)
    ensures RowsPlaced(schedule, context, outcomes, rows, n, lane)
    decreases rows
  {
    if rows == 0 {
      assert Taken(schedule, context, outcomes, 0) == [];
    } else {
      RowsArePlaced(schedule, context, outcomes, rows - 1, n - 5, lane);
      OneMoreRowPlaced(schedule, context, outcomes, rows - 1, n, lane);
    }
  }

  /** A run without failure, all of it borne out, leaves every sample where the validator looks for it. */
  lemma CompletedRunIsValid(id: string, schedule: seq<Row>, context: Context, outcomes: seq<Outcome>)
    requires IsSchedule(schedule) && |outcomes| == EventCount(schedule) && AllSucceed(outcomes)
    ensures ValidMeasured(schedule, context, RecordAfter(id, schedule, context, outcomes, |outcomes|))
  {
    var r := RecordAfter(id, schedule, context, outcomes, |outcomes|);
    forall lane: Lane
      ensures InPlace(schedule, context, Warmup, lane, r.warmups.Of(lane), 2)
      ensures InPlace(schedule, context, Timed, lane, r.samples.Of(lane), |schedule|)
    {
      ListsAreSpread(schedule, context, outcomes, |outcomes|);
      RowsArePlaced(schedule, context, outcomes, 2 + |schedule|, |outcomes|, lane);
      SpreadIsShare(Taken(schedule, context, outcomes, |outcomes|), Warmup, lane);
      SpreadIsShare(Taken(schedule, context, outcomes, |outcomes|), Timed, lane);
    }
    assert BlocksStarted(schedule, |outcomes|) == |schedule|;
  }

  lemma GatheredIsListed(warmups: PerLane, samples: PerLane, x: Observed)
    requires x in Gathered(warmups, samples)
    ensures x.sample in warmups.Of(x.lane) || x.sample in samples.Of(x.lane)
  {
    var lane :| x in OfLane(warmups, samples, lane);
  }

  /** No sample of the record is missing from its lists. */
  lemma TakenIsListed(
    id: string, schedule: seq<Row>, context: Context, outcomes: seq<Outcome>, n: nat, i: nat)
    requires IsSchedule(schedule) && n <= EventCount(schedule) && n <= |outcomes| && i < n
    ensures var r, x := RecordAfter(id, schedule, context, outcomes, n), EventAt(schedule, context, outcomes, i);
      x.sample in r.warmups.Of(x.lane) || x.sample in r.samples.Of(x.lane)
  {
    var taken, x := Taken(schedule, context, outcomes, n), EventAt(schedule, context, outcomes, i);
    ListsAreSpread(schedule, context, outcomes, n);
    TakenAt(schedule, context, outcomes, n);
    var _ := RegatheredIsTaken(taken);
    assert taken[i] == x && x in taken;
    assert x in multiset(Regathered(taken));
    GatheredIsListed(Spread(taken, Warmup), Spread(taken, Timed), x);
  }

  /** Complete evidence of a run without failure is accepted if and only if every event is borne out. */
  lemma CompletedRunIsValidIff(id: string, schedule: seq<Row>, context: Context, outcomes: seq<Outcome>)
    requires IsSchedule(schedule) && |outcomes| == EventCount(schedule)
    requires forall i :: 0 <= i < |outcomes| ==> outcomes[i].Success?
    ensures ValidMeasured(schedule, context, RecordAfter(id, schedule, context, outcomes, |outcomes|))
      <==> AllShown(outcomes, |outcomes|)
  {
    var r := RecordAfter(id, schedule, context, outcomes, |outcomes|);
    if AllShown(outcomes, |outcomes|) {
      CompletedRunIsValid(id, schedule, context, outcomes);
    }
    if ValidMeasured(schedule, context, r) {
      forall i | 0 <= i < |outcomes|
        ensures Shown(outcomes[i])
      {
        TakenIsListed(id, schedule, context, outcomes, |outcomes|, i);
        ListedIsBound(schedule, context, r, LaneAt(schedule, i), EventAt(schedule, context, outcomes, i).sample);
      }
    }
  }

  lemma ListedIsBound(schedule: seq<Row>, context: Context, r: WorkloadRecord, lane: Lane, s: Sample)
    requires IsSchedule(schedule) && ValidMeasured(schedule, context, r)
    requires s in r.warmups.Of(lane) || s in r.samples.Of(lane)
    ensures s.evidence.bound
  {
    assert InPlace(schedule, context, Warmup, lane, r.warmups.Of(lane), 2);
  }

  // ----- The run itself -----

  /** The evidence dictionary the caller holds on to, so that a failed run still leaves it filled. */
  class WorkloadEvidence {
    var record: WorkloadRecord

    constructor (id: string, buildMode: string)
      ensures record == NotStartedRecord(id, buildMode)
    {
      record := NotStartedRecord(id, buildMode);
    }

    /** Runs one process and files its sample; an error is returned after the failed sample has been filed. */
    method RunEvent(schedule: seq<Row>, context: Context, outcomes: seq<Outcome>, n: nat)
      returns (error: Option<string>)
      requires IsSchedule(schedule) && n < EventCount(schedule) && n < |outcomes|
      requires Filed(schedule, context, outcomes, n)
      modifies this
      ensures Filed(schedule, context, outcomes, n + 1)
      ensures record == old(record).(warmups := record.warmups, samples := record.samples)
      ensures error == if outcomes[n].Success? then None else Some(StatusOf(outcomes[n]).message)
    {
      var lane := RowAt(schedule, n / 5)[n % 5];
      var sample := SampleAt(n, context, outcomes[n]);
      if sample.phase == Warmup {
        record := record.(warmups := record.warmups.Appended(lane, sample));
      } else {
        record := record.(samples := record.samples.Appended(lane, sample));
      }
      error := if sample.status.Failed? then Some(sample.status.message) else None;
    }

    ghost predicate Filed(schedule: seq<Row>, context: Context, outcomes: seq<Outcome>, n: nat)
      requires IsSchedule(schedule) && n <= EventCount(schedule) && n <= |outcomes|
      reads this
    {
      Lists(record.warmups, record.samples) == ListsAfter(schedule, context, outcomes, n)
    }

    /** The error of the last of `n` events, if it failed; the others from `first` on succeeded. */
    ghost predicate LastError(outcomes: seq<Outcome>, first: nat, n: nat, error: Option<string>)
      requires first <= n <= |outcomes|
    {
      && (forall i :: first <= i < n - 1 ==> outcomes[i].Success?)
      && error == if n == first || outcomes[n - 1].Success? then None else Some(StatusOf(outcomes[n - 1]).message)
    }

    lemma ErrorGrows(outcomes: seq<Outcome>, first: nat, n: nat, error: Option<string>)
      requires first <= n < |outcomes| && LastError(outcomes, first, n, None)
      requires error == if outcomes[n].Success? then None else Some(StatusOf(outcomes[n]).message)
      ensures LastError(outcomes, first, n + 1, error)
    {
    }

    /** One order of the schedule, position by position, up to a first failure. */
    method RunRow(schedule: seq<Row>, context: Context, outcomes: seq<Outcome>, first: nat)
      returns (error: Option<string>, n: nat)
      requires IsSchedule(schedule) && first + 5 <= EventCount(schedule) <= |outcomes|
      requires Filed(schedule, context, outcomes, first)
      modifies this
      ensures first < n <= first + 5
      ensures Filed(schedule, context, outcomes, n)
      ensures record == old(record).(warmups := record.warmups, samples := record.samples)
      ensures LastError(outcomes, first, n, error) && (error.None? ==> n == first + 5)
    {
      n := first;
      error := None;
      while n < first + 5 && error.None?
        invariant first <= n <= first + 5
        invariant Filed(schedule, context, outcomes, n)
        invariant record == old(record).(warmups := record.warmups, samples := record.samples)
        invariant LastError(outcomes, first, n, error)
        decreases first + 5 - n
      {
        error := RunEvent(schedule, context, outcomes, n);
        ErrorGrows(outcomes, first, n, error);
        n := n + 1;
      }
    }

    /** The record once `blocks` blocks have been begun and `n` events taken. */
    ghost predicate Midway(
      id: string, schedule: seq<Row>, context: Context, outcomes: seq<Outcome>, blocks: nat, n: nat)
      requires IsSchedule(schedule) && n <= EventCount(schedule) && n <= |outcomes|
      reads this
    {
      && blocks <= |schedule|
      && record == WorkloadRecord(
        id, context.buildMode, schedule[..2],
        ListsAfter(schedule, context, outcomes, n).warmups, ListsAfter(schedule, context, outcomes, n).samples,
        Blocks(schedule, blocks), Running, None)
    }

    /** A block is entered in the block schedule before it is run; a warmup order is not. */
    method BeginRow(
      ghost id: string, schedule: seq<Row>, context: Context, ghost outcomes: seq<Outcome>, row: nat, ghost first: nat)
      requires IsSchedule(schedule) && row < 2 + |schedule| && EventCount(schedule) <= |outcomes|
      requires first == 5 * row
      requires Midway(id, schedule, context, outcomes, if row < 2 then 0 else row - 2, first)
      modifies this
      ensures Midway(id, schedule, context, outcomes, if row < 2 then 0 else row - 1, first)
    {
      if row >= 2 {
        record := record.(blockSchedule := record.blockSchedule + [Block(row - 1, schedule[row - 2])]);
      }
    }

    /** A warmup order, or a block. */
    method NextRow(
      ghost id: string, schedule: seq<Row>, context: Context, outcomes: seq<Outcome>, row: nat, first: nat)
      returns (error: Option<string>, n: nat)
      requires IsSchedule(schedule) && row < 2 + |schedule| && EventCount(schedule) <= |outcomes|
      requires first == 5 * row
      requires Midway(id, schedule, context, outcomes, if row < 2 then 0 else row - 2, first)
      modifies this
      ensures first < n <= first + 5
      ensures Midway(id, schedule, context, outcomes, if row < 2 then 0 else row - 1, n)
      ensures LastError(outcomes, first, n, error) && (error.None? ==> n == first + 5)
    {
      BeginRow(id, schedule, context, outcomes, row, first);
      error, n := RunRow(schedule, context, outcomes, first);
    }

    lemma ErrorsChain(outcomes: seq<Outcome>, first: nat, n: nat, error: Option<string>)
      requires first < n <= |outcomes|
      requires LastError(outcomes, 0, first, None) && LastError(outcomes, first, n, error)
      ensures LastError(outcomes, 0, n, error)
    {
    }

    method Conclude(
      ghost id: string, schedule: seq<Row>, context: Context, outcomes: seq<Outcome>, ghost n: nat,
      error: Option<string>)
      requires IsSchedule(schedule) && 0 < n <= EventCount(schedule) && n <= |outcomes|
      requires Midway(id, schedule, context, outcomes, BlocksStarted(schedule, n), n)
      requires LastError(outcomes, 0, n, error)
      modifies this
      ensures record == RecordAfter(id, schedule, context, outcomes, n) && error == record.failureReason
    {
      if error.Some? {
        record := record.(status := FailedCollection, failureReason := error);
      } else {
        record := record.(status := CompletedCollection);
      }
    }

    /** The warmup orders and then the blocks. */
    method MeasureResolved(schedule: seq<Row>, context: Context, outcomes: seq<Outcome>)
      returns (error: Option<string>, n: nat)
      requires IsSchedule(schedule) && |outcomes| == EventCount(schedule)
      modifies this
      ensures StopsAt(schedule, outcomes, n) && n > 0
      ensures record == RecordAfter(old(record.id), schedule, context, outcomes, n)
      ensures error == record.failureReason
    {
      ghost var id := record.id;
      record := WorkloadRecord(
        record.id, context.buildMode, schedule[..2], NO_SAMPLES, NO_SAMPLES, [], Running, None);
      error := None;
      n := 0;
      var row := 0;
      assert Blocks(schedule, 0) == [];
      while row < 2 + |schedule| && error.None?
        invariant row <= 2 + |schedule| && 5 * row - 5 < n <= 5 * row
        invariant Midway(id, schedule, context, outcomes, if row < 2 then 0 else row - 2, n)
        invariant LastError(outcomes, 0, n, error) && (error.None? ==> n == 5 * row)
        decreases 2 + |schedule| - row
      {
        var first := n;
        error, n := NextRow(id, schedule, context, outcomes, row, first);
        ErrorsChain(outcomes, first, n, error);
        row := row + 1;
      }
      assert (if row < 2 then 0 else row - 2) == BlocksStarted(schedule, n);
      Conclude(id, schedule, context, outcomes, n, error);
    }

    /** The fixture is resolved before the evidence is touched; if that fails the caller's record stays as it was. */
    method MeasureWorkloadBatch(schedule: seq<Row>, context: Context, run: WorkloadRun)
      returns (error: Option<string>, ghost n: nat)
      requires IsSchedule(schedule) && RunShaped(schedule, run)
      modifies this
      ensures run.Unresolved? ==> record == old(record) && error == Some(run.reason)
      ensures run.Resolved? ==>
        && StopsAt(schedule, run.outcomes, n) && n > 0
        && record == RecordAfter(old(record.id), schedule, context, run.outcomes, n)
        && error == record.failureReason
    {
      if run.Unresolved? {
        return Some(run.reason), 0;
      }
      error, n := MeasureResolved(schedule, context, run.outcomes);
    }
  }
}
