/** The events of one measured workload, the evidence they leave, and what the validator asks of it. */
module Sampling {
  import opened Wrappers
  import opened Ordering

  datatype Lane = Candidate | MainLane | CLane | CppLane | GoLane

  const TIMED_LANES: seq<Lane> := [Candidate, MainLane, CLane, CppLane, GoLane]

  type Row = seq<Lane>

  /** A row runs every lane once. */
  ghost predicate IsRow(row: Row) {
    && |row| == 5
    && (forall i, j :: 0 <= i < j < 5 ==> row[i] != row[j])
    && (forall lane: Lane :: lane in row)
  }

  /** At least two rows, since the first two are run once more as warmups. */
  ghost predicate IsSchedule(schedule: seq<Row>) {
    |schedule| >= 2 && forall r :: 0 <= r < |schedule| ==> IsRow(schedule[r])
  }

  datatype Phase = Warmup | Timed

  /** What the collector reports of one process. `bound` says that command, executable, environment, collector
      and output are those of the build and the fixture; `failureBound` says the same of a failed process, whose
      output may be anything, and that its kind of failure is the one its exit code and timeout flag show. */
  datatype Evidence = Evidence(wallNs: int, startedAt: int, finishedAt: int, bound: bool, failureBound: bool)

  datatype SampleStatus = Passed | Failed(message: string)

  /** `index` numbers the warmup or the block, `position` the place in its order; both count from 1. */
  datatype Sample = Sample(
    phase: Phase, index: int, position: int, context: Context, status: SampleStatus, evidence: Evidence)

  datatype Context = Context(buildMode: string, batchIndex: int, attemptIndex: int)

  datatype CollectionStatus = NotStarted | Running | CompletedCollection | FailedCollection

  datatype Block = Block(blockIndex: int, order: Row)

  /** One list for each timed lane. */
  datatype PerLane = PerLane(
    candidate: seq<Sample>, main: seq<Sample>, c: seq<Sample>, cpp: seq<Sample>, go: seq<Sample>)
  {
    function Of(lane: Lane): seq<Sample> {
      match lane
      case Candidate => candidate
      case MainLane => main
      case CLane => c
      case CppLane => cpp
      case GoLane => go
    }

    function Appended(lane: Lane, s: Sample): PerLane {
      match lane
      case Candidate => this.(candidate := candidate + [s])
      case MainLane => this.(main := main + [s])
      case CLane => this.(c := c + [s])
      case CppLane => this.(cpp := cpp + [s])
      case GoLane => this.(go := go + [s])
    }
  }

  const NO_SAMPLES := PerLane([], [], [], [], [])

  datatype WorkloadRecord = WorkloadRecord(
    id: string,
    buildMode: string,
    warmupOrders: seq<Row>,
    warmups: PerLane,
    samples: PerLane,
    blockSchedule: seq<Block>,
    status: CollectionStatus,
    failureReason: Option<string>)

  /** What the caller enters for a workload before it is measured. */
  function NotStartedRecord(id: string, buildMode: string): WorkloadRecord {
    WorkloadRecord(id, buildMode, [], NO_SAMPLES, NO_SAMPLES, [], NotStarted, None)
  }

  // ----- The events, in the order they are run -----

  /** The order run `row`-th, warmups first. */
  function RowAt(schedule: seq<Row>, row: nat): Row
    requires |schedule| >= 2 && row < 2 + |schedule|
  {
    if row < 2 then schedule[row] else schedule[row - 2]
  }

  function EventCount(schedule: seq<Row>): nat {
    (2 + |schedule|) * 5
  }

  function LaneAt(schedule: seq<Row>, n: nat): Lane
    requires IsSchedule(schedule) && n < EventCount(schedule)
  {
    RowAt(schedule, n / 5)[n % 5]
  }

  function PhaseAt(n: nat): Phase {
    if n < 10 then Warmup else Timed
  }

  function IndexAt(n: nat): nat {
    if n < 10 then n / 5 + 1 else n / 5 - 1
  }

  datatype Outcome =
    | Success(evidence: Evidence)
    | SampleError(message: string, evidence: Evidence)
    | OtherError(message: string, evidence: Evidence)

  /** What happens when a workload is measured: its fixture cannot be resolved, or its events report. */
  datatype WorkloadRun =
    | Unresolved(reason: string)
    | Resolved(outcomes: seq<Outcome>)

  ghost predicate RunShaped(schedule: seq<Row>, run: WorkloadRun) {
    run.Resolved? ==> |run.outcomes| == EventCount(schedule)
  }

  /** An exception other than the collector's own is reported under a prefix. */
  function StatusUnder(prefix: string, outcome: Outcome): SampleStatus {
    match outcome
    case Success(_) => Passed
    case SampleError(message, _) => Failed(message)
    case OtherError(message, _) => Failed(prefix + message)
  }

  function StatusOf(outcome: Outcome): SampleStatus {
    StatusUnder("collector failed before producing a sample: ", outcome)
  }

  /** What a process did is borne out by its evidence, so that the check of its sample succeeds. A process that
      exits with 0 when it is about to be killed for its timeout is not. */
  predicate Shown(outcome: Outcome) {
    if outcome.Success? then outcome.evidence.bound else outcome.evidence.failureBound
  }

  ghost predicate AllShown(outcomes: seq<Outcome>, n: nat)
    requires n <= |outcomes|
  {
    forall i :: 0 <= i < n ==> Shown(outcomes[i])
  }

  function SampleAt(n: nat, context: Context, outcome: Outcome): Sample {
    Sample(PhaseAt(n), IndexAt(n), n % 5 + 1, context, StatusOf(outcome), outcome.evidence)
  }

  /** The collector never fails with an empty message. */
  ghost predicate Outspoken(outcomes: seq<Outcome>) {
    forall i :: 0 <= i < |outcomes| && outcomes[i].SampleError? ==> outcomes[i].message != ""
  }

  datatype Observed = Observed(lane: Lane, sample: Sample)

  function EventAt(schedule: seq<Row>, context: Context, outcomes: seq<Outcome>, i: nat): Observed
    requires IsSchedule(schedule) && i < EventCount(schedule) && i < |outcomes|
  {
    Observed(LaneAt(schedule, i), SampleAt(i, context, outcomes[i]))
  }

  /** The first `n` events, each with the lane it ran in. */
  function Taken(schedule: seq<Row>, context: Context, outcomes: seq<Outcome>, n: nat): (r: seq<Observed>)
    requires IsSchedule(schedule) && n <= EventCount(schedule) && n <= |outcomes|
    ensures |r| == n
  {
    if n == 0 then [] else Taken(schedule, context, outcomes, n - 1) + [EventAt(schedule, context, outcomes, n - 1)]
  }

  lemma {:induction false} TakenAt(schedule: seq<Row>, context: Context, outcomes: seq<Outcome>, n: nat)
    requires IsSchedule(schedule) && n <= EventCount(schedule) && n <= |outcomes|
    ensures forall i :: 0 <= i < n ==>
      Taken(schedule, context, outcomes, n)[i] == EventAt(schedule, context, outcomes, i)
  {
    if n > 0 {
      TakenAt(schedule, context, outcomes, n - 1);
    }
  }

  /** The samples of one phase and lane, in order. */
  function Share(events: seq<Observed>, phase: Phase, lane: Lane): seq<Sample> {
    if events == [] then []
    else
      var n := |events| - 1;
      var before := Share(events[..n], phase, lane);
      if events[n].sample.phase == phase && events[n].lane == lane then before + [events[n].sample] else before
  }

  /** The samples of one phase, spread over the lanes they ran in. */
  function Spread(events: seq<Observed>, phase: Phase): PerLane {
    if events == [] then NO_SAMPLES
    else
      var n := |events| - 1;
      var before := Spread(events[..n], phase);
      if events[n].sample.phase == phase then before.Appended(events[n].lane, events[n].sample) else before
  }

  lemma {:induction false} SpreadIsShare(events: seq<Observed>, phase: Phase, lane: Lane)
    ensures Spread(events, phase).Of(lane) == Share(events, phase, lane)
  {
    if events != [] {
      SpreadIsShare(events[..|events| - 1], phase, lane);
    }
  }

  /** The lists of both phases. */
  datatype Lists = Lists(warmups: PerLane, samples: PerLane) {
    function Filed(x: Observed): Lists {
      if x.sample.phase == Warmup then this.(warmups := warmups.Appended(x.lane, x.sample))
      else this.(samples := samples.Appended(x.lane, x.sample))
    }
  }

  /** The lists once `n` events have been taken and filed, one after another. */
  function ListsAfter(schedule: seq<Row>, context: Context, outcomes: seq<Outcome>, n: nat): Lists
    requires IsSchedule(schedule) && n <= EventCount(schedule) && n <= |outcomes|
  {
    if n == 0 then Lists(NO_SAMPLES, NO_SAMPLES)
    else ListsAfter(schedule, context, outcomes, n - 1).Filed(EventAt(schedule, context, outcomes, n - 1))
  }

  /** Filing event by event is spreading all the events taken. */
  lemma {:induction false} ListsAreSpread(schedule: seq<Row>, context: Context, outcomes: seq<Outcome>, n: nat)
    requires IsSchedule(schedule) && n <= EventCount(schedule) && n <= |outcomes|
    ensures ListsAfter(schedule, context, outcomes, n) == var taken := Taken(schedule, context, outcomes, n);
      Lists(Spread(taken, Warmup), Spread(taken, Timed))
  {
    if n > 0 {
      ListsAreSpread(schedule, context, outcomes, n - 1);
      var before := Taken(schedule, context, outcomes, n - 1);
      assert Taken(schedule, context, outcomes, n)[..n - 1] == before;
    }
  }

  /** The blocks that have been started once `n` events have been taken. */
  function BlocksStarted(schedule: seq<Row>, n: nat): nat {
    if n <= 10 then 0 else (n - 6) / 5
  }

  function Blocks(schedule: seq<Row>, n: nat): (r: seq<Block>)
    requires n <= |schedule|
    ensures |r| == n && forall i :: 0 <= i < n ==> r[i] == Block(i + 1, schedule[i])
  {
    seq(n, i requires 0 <= i < n => Block(i + 1, schedule[i]))
  }

  /** Events run up to and including the first failure, or all of them. */
  ghost predicate StopsAt(schedule: seq<Row>, outcomes: seq<Outcome>, n: nat) {
    && n <= EventCount(schedule)
    && n <= |outcomes|
    && (forall i :: 0 <= i < n - 1 ==> outcomes[i].Success?)
    && (n < EventCount(schedule) ==> n > 0 && !outcomes[n - 1].Success?)
  }

  // ----- The validator -----

  /** The row and place a sample claims are those of its lane. */
  predicate OnSchedule(schedule: seq<Row>, lane: Lane, s: Sample)
    requires IsSchedule(schedule)
  {
    && 1 <= s.index <= (if s.phase == Warmup then 2 else |schedule|)
    && 1 <= s.position <= 5
    && schedule[s.index - 1][s.position - 1] == lane
  }

  function Ordinal(s: Sample): int {
    (if s.phase == Warmup then 0 else 10) + (s.index - 1) * 5 + s.position - 1
  }

  function Tagged(lane: Lane, samples: seq<Sample>): (r: seq<Observed>)
    ensures |r| == |samples| && forall i :: 0 <= i < |samples| ==> r[i] == Observed(lane, samples[i])
  {
    seq(|samples|, i requires 0 <= i < |samples| => Observed(lane, samples[i]))
  }

  /** The samples of one lane, warmups before timed samples. */
  function OfLane(warmups: PerLane, samples: PerLane, lane: Lane): seq<Observed> {
    Tagged(lane, warmups.Of(lane) + samples.Of(lane))
  }

  /** Every sample of the record, lane by lane. */
  function Gathered(warmups: PerLane, samples: PerLane): seq<Observed> {
    OfLane(warmups, samples, Candidate)
    + OfLane(warmups, samples, MainLane)
    + OfLane(warmups, samples, CLane)
    + OfLane(warmups, samples, CppLane)
    + OfLane(warmups, samples, GoLane)
  }

  predicate EarlierOrSame(x: Observed, y: Observed) {
    Ordinal(x.sample) <= Ordinal(y.sample)
  }

  function Merged(r: WorkloadRecord): seq<Observed> {
    Sort(EarlierOrSame, Gathered(r.warmups, r.samples))
  }

  predicate Accounted(schedule: seq<Row>, context: Context, reason: Option<string>, x: Observed)
    requires IsSchedule(schedule)
  {
    && OnSchedule(schedule, x.lane, x.sample)
    && x.sample.context == context
    && match x.sample.status
      case Passed => x.sample.evidence.bound
      case Failed(message) => x.sample.evidence.failureBound && reason == Some(message)
  }

  ghost predicate EachAccounted(schedule: seq<Row>, context: Context, reason: Option<string>, events: seq<Observed>)
    requires IsSchedule(schedule)
  {
    forall x :: x in events ==> Accounted(schedule, context, reason, x)
  }

  /** The events number 0, 1, 2, ... without a gap, and only the last one failed. */
  ghost predicate FailedTail(events: seq<Observed>) {
    && events != []
    && (forall i :: 0 <= i < |events| ==> Ordinal(events[i].sample) == i)
    && (forall i :: 0 <= i < |events| ==> (events[i].sample.status.Failed? <==> i == |events| - 1))
  }

  ghost predicate AcceptsEvents(schedule: seq<Row>, context: Context, r: WorkloadRecord, events: seq<Observed>)
    requires IsSchedule(schedule)
  {
    && EachAccounted(schedule, context, r.failureReason, events)
    && FailedTail(events)
    && var last := events[|events| - 1];
    assert last in events;
    r.blockSchedule == if last.sample.phase == Timed then Blocks(schedule, last.sample.index) else []
  }

  /** What a workload says of itself, before its samples are looked at. */
  predicate PartialHeader(schedule: seq<Row>, context: Context, r: WorkloadRecord)
    requires |schedule| >= 2
  {
    && r.buildMode == context.buildMode
    && r.status == FailedCollection
    && r.failureReason.Some? && r.failureReason.value != ""
    && r.warmupOrders == schedule[..2]
  }

  /** What `validate_partial_workload` accepts: one failed tail after a complete event prefix. */
  ghost predicate ValidPartial(schedule: seq<Row>, context: Context, r: WorkloadRecord)
    requires IsSchedule(schedule)
  {
    && PartialHeader(schedule, context, r)
    && AcceptsEvents(schedule, context, r, Merged(r))
  }

  function PositionOf(row: Row, lane: Lane): nat
    requires IsRow(row)
    ensures PositionOf(row, lane) < 5 && row[PositionOf(row, lane)] == lane
  {
    assert lane in row;
    if row[0] == lane then 0 else if row[1] == lane then 1 else if row[2] == lane then 2
    else if row[3] == lane then 3 else 4
  }

  /** The `index`-th list entry of a lane is the sample of that warmup or block. */
  ghost predicate InPlace(
    schedule: seq<Row>, context: Context, phase: Phase, lane: Lane, list: seq<Sample>, rows: nat)
    requires IsSchedule(schedule) && rows <= |schedule|
  {
    && |list| == rows
    && forall i :: 0 <= i < rows ==>
      && list[i].phase == phase
      && list[i].index == i + 1
      && list[i].position == PositionOf(schedule[i], lane) + 1
      && list[i].context == context
      && list[i].evidence.bound
  }

  /** What `validate_measured_workload` accepts. It does not ask whether a sample passed; the schema does. */
  ghost predicate ValidMeasured(schedule: seq<Row>, context: Context, r: WorkloadRecord)
    requires IsSchedule(schedule)
  {
    && r.buildMode == context.buildMode
    && r.status == CompletedCollection
    && r.failureReason == None
    && r.warmupOrders == schedule[..2]
    && r.blockSchedule == Blocks(schedule, |schedule|)
    && (forall lane: Lane ::
      && InPlace(schedule, context, Warmup, lane, r.warmups.Of(lane), 2)
      && InPlace(schedule, context, Timed, lane, r.samples.Of(lane), |schedule|))
  }
}
