/** Evidence the validator accepts as complete is what some run without failure leaves. */
module CompleteEvidence {
  import opened Sampling
  import opened Measurement
  import opened CorrectnessGate

  // ----- Measured workloads -----

  /** The evidence the record keeps of event `n`. */
  function EvidenceAt(schedule: seq<Row>, r: WorkloadRecord, n: nat): Evidence
    requires IsSchedule(schedule) && n < EventCount(schedule)
  {
    var lane := LaneAt(schedule, n);
    var list, at := if n < 10 then r.warmups.Of(lane) else r.samples.Of(lane), if n < 10 then n / 5 else n / 5 - 2;
    if at < |list| then list[at].evidence else Evidence(0, 0, 0, true, false)
  }

  /** Every event succeeds with the evidence the record keeps of it. */
  ghost predicate Reports(schedule: seq<Row>, r: WorkloadRecord, outcomes: seq<Outcome>)
    requires IsSchedule(schedule)
  {
    && |outcomes| == EventCount(schedule)
    && AllSucceed(outcomes)
    && forall n {:trigger EvidenceAt(schedule, r, n)} :: 0 <= n < |outcomes| ==>
      outcomes[n] == Success(EvidenceAt(schedule, r, n))
  }

  ghost predicate NoneFailed(samples: seq<Sample>) {
    forall i :: 0 <= i < |samples| ==> samples[i].status == Passed
  }

  /** What the schema asks of a completed workload: a sample that failed has another shape. */
  ghost predicate MeasuredSchema(r: WorkloadRecord) {
    forall lane: Lane :: NoneFailed(r.warmups.Of(lane)) && NoneFailed(r.samples.Of(lane))
  }

  /** Each lane has one passed sample of each order, in its place. */
  ghost predicate FullLists(schedule: seq<Row>, context: Context, r: WorkloadRecord, lane: Lane)
    requires IsSchedule(schedule)
  {
    && InPlace(schedule, context, Warmup, lane, r.warmups.Of(lane), 2)
    && InPlace(schedule, context, Timed, lane, r.samples.Of(lane), |schedule|)
    && NoneFailed(r.warmups.Of(lane)) && NoneFailed(r.samples.Of(lane))
  }

  lemma SomeOutcomesReport(schedule: seq<Row>, context: Context, r: WorkloadRecord) returns (outcomes: seq<Outcome>)
    requires IsSchedule(schedule) && forall lane: Lane :: FullLists(schedule, context, r, lane)
    ensures Reports(schedule, r, outcomes)
  {
    outcomes := seq(EventCount(schedule), n requires 0 <= n < EventCount(schedule) =>
      Success(EvidenceAt(schedule, r, n)));
    forall n | 0 <= n < |outcomes|
      ensures outcomes[n].Success? && outcomes[n].evidence.bound
    {
      assert FullLists(schedule, context, r, LaneAt(schedule, n));
    }
  }

  /** The sample the record has of one lane and row. */
  function Kept(schedule: seq<Row>, r: WorkloadRecord, row: nat, lane: Lane): Sample
    requires row < 2 + |schedule| && |r.warmups.Of(lane)| == 2 && |r.samples.Of(lane)| == |schedule|
  {
    if row < 2 then r.warmups.Of(lane)[row] else r.samples.Of(lane)[row - 2]
  }

  lemma EvidenceIsKept(schedule: seq<Row>, r: WorkloadRecord, row: nat, at: nat, lane: Lane)
    requires IsSchedule(schedule) && row < 2 + |schedule| && at == PositionOf(RowAt(schedule, row), lane)
    requires |r.warmups.Of(lane)| == 2 && |r.samples.Of(lane)| == |schedule|
    ensures EvidenceAt(schedule, r, 5 * row + at) == Kept(schedule, r, row, lane).evidence
  {
    RowDivision(row, at);
    assert LaneAt(schedule, 5 * row + at) == lane;
  }

  lemma RowEventEvidence(schedule: seq<Row>, context: Context, outcomes: seq<Outcome>, row: nat, at: nat)
    requires IsSchedule(schedule) && row < 2 + |schedule| && EventCount(schedule) <= |outcomes| && at < 5
    ensures RowEvents(schedule, context, outcomes, row)[at].sample.evidence == outcomes[5 * row + at].evidence
  {
    RowEventIs(schedule, context, outcomes, row, at);
  }

  /** The sample reported for one lane and row is the one kept. */
  lemma RowEventIsKept(
    schedule: seq<Row>, context: Context, r: WorkloadRecord, outcomes: seq<Outcome>, row: nat, at: nat, lane: Lane)
    requires IsSchedule(schedule) && row < 2 + |schedule| && at == PositionOf(RowAt(schedule, row), lane)
    requires Reports(schedule, r, outcomes) && FullLists(schedule, context, r, lane)
    ensures RowEvents(schedule, context, outcomes, row)[at].sample == Kept(schedule, r, row, lane)
  {
    EvidenceIsKept(schedule, r, row, at, lane);
    RowEventShape(schedule, context, outcomes, row, at);
    RowEventEvidence(schedule, context, outcomes, row, at);
  }

  lemma RowMatches(
    schedule: seq<Row>, context: Context, r: WorkloadRecord, outcomes: seq<Outcome>, row: nat, lane: Lane)
    requires IsSchedule(schedule) && row < 2 + |schedule|
    requires Reports(schedule, r, outcomes) && FullLists(schedule, context, r, lane)
    ensures var events := RowEvents(schedule, context, outcomes, row);
      && Share(events, Warmup, lane) == (if row < 2 then [Kept(schedule, r, row, lane)] else [])
      && Share(events, Timed, lane) == (if row < 2 then [] else [Kept(schedule, r, row, lane)])
  {
    RowShare(schedule, context, outcomes, row, lane, Warmup);
    RowShare(schedule, context, outcomes, row, lane, Timed);
    RowEventIsKept(schedule, context, r, outcomes, row, PositionOf(RowAt(schedule, row), lane), lane);
  }

  /** What `rows` orders leave of the record's lists. */
  ghost predicate ListsUpTo(
    schedule: seq<Row>, r: WorkloadRecord, lane: Lane, rows: nat, warmups: seq<Sample>, samples: seq<Sample>)
    requires rows <= 2 + |schedule|
  {
    && |r.warmups.Of(lane)| == 2 && |r.samples.Of(lane)| == |schedule|
    && warmups == r.warmups.Of(lane)[..if rows < 2 then rows else 2]
    && samples == r.samples.Of(lane)[..if rows < 2 then 0 else rows - 2]
  }

  lemma ListsUpToGrow(
    schedule: seq<Row>, r: WorkloadRecord, lane: Lane, row: nat, warmups: seq<Sample>, samples: seq<Sample>)
    requires row < 2 + |schedule| && ListsUpTo(schedule, r, lane, row, warmups, samples)
    ensures ListsUpTo(
      schedule, r, lane, row + 1,
      warmups + (if row < 2 then [Kept(schedule, r, row, lane)] else []),
      samples + (if row < 2 then [] else [Kept(schedule, r, row, lane)]))
  {
  }

  /** The first `n` events, `rows` orders, leave that. */
  ghost predicate RowsAgree(
    schedule: seq<Row>, context: Context, r: WorkloadRecord, outcomes: seq<Outcome>, rows: nat, n: nat, lane: Lane)
    requires IsSchedule(schedule) && rows <= 2 + |schedule| && n <= EventCount(schedule) && n <= |outcomes|
  {
    ListsUpTo(
      schedule, r, lane, rows,
      WarmupsAfter(schedule, context, outcomes, n, lane), SamplesAfter(schedule, context, outcomes, n, lane))
  }

  lemma OneMoreRowAgrees(
    schedule: seq<Row>, context: Context, r: WorkloadRecord, outcomes: seq<Outcome>, row: nat, n: nat, lane: Lane)
    requires IsSchedule(schedule) && row < 2 + |schedule| && n == 5 * row + 5
    requires Reports(schedule, r, outcomes) && FullLists(schedule, context, r, lane)
    requires RowsAgree(schedule, context, r, outcomes, row, n - 5, lane)
    ensures RowsAgree(schedule, context, r, outcomes, row + 1, n, lane)
  {
    RowMatches(schedule, context, r, outcomes, row, lane);
    ListsAfterRow(schedule, context, outcomes, row, n, lane);
    ListsUpToGrow(
      schedule, r, lane, row,
      WarmupsAfter(schedule, context, outcomes, n - 5, lane), SamplesAfter(schedule, context, outcomes, n - 5, lane));
  }

  lemma {:induction false} RowsMatch(
    schedule: seq<Row>, context: Context, r: WorkloadRecord, outcomes: seq<Outcome>, rows: nat, n: nat, lane: Lane)
    requires IsSchedule(schedule) && rows <= 2 + |schedule| && n == 5 * rows
    requires Reports(schedule, r, outcomes) && FullLists(schedule, context, r, lane)
    ensures RowsAgree(schedule, context, r, outcomes, rows, n, lane)
    decreases rows
  {
    if rows == 0 {
      assert Taken(schedule, context, outcomes, 0) == [];
    } else {
      RowsMatch(schedule, context, r, outcomes, rows - 1, n - 5, lane);
      OneMoreRowAgrees(schedule, context, r, outcomes, rows - 1, n, lane);
    }
  }

  lemma UpToAllRows(
    schedule: seq<Row>, r: WorkloadRecord, lane: Lane, rows: nat, warmups: seq<Sample>, samples: seq<Sample>)
    requires |schedule| >= 2 && rows == 2 + |schedule| && ListsUpTo(schedule, r, lane, rows, warmups, samples)
    ensures warmups == r.warmups.Of(lane) && samples == r.samples.Of(lane)
  {
  }

  lemma AllRowsMatch(
    schedule: seq<Row>, context: Context, r: WorkloadRecord, outcomes: seq<Outcome>, n: nat, lane: Lane)
    requires IsSchedule(schedule) && n == EventCount(schedule)
    requires Reports(schedule, r, outcomes) && FullLists(schedule, context, r, lane)
    ensures WarmupsAfter(schedule, context, outcomes, n, lane) == r.warmups.Of(lane)
    ensures SamplesAfter(schedule, context, outcomes, n, lane) == r.samples.Of(lane)
  {
    var rows := 2 + |schedule|;
    RowsMatch(schedule, context, r, outcomes, rows, n, lane);
    UpToAllRows(
      schedule, r, lane, rows,
      WarmupsAfter(schedule, context, outcomes, n, lane), SamplesAfter(schedule, context, outcomes, n, lane));
  }

  lemma SameLists(a: PerLane, b: PerLane)
    requires forall lane: Lane :: a.Of(lane) == b.Of(lane)
    ensures a == b
  {
    assert a.Of(Candidate) == b.Of(Candidate) && a.Of(MainLane) == b.Of(MainLane) && a.Of(CLane) == b.Of(CLane)
      && a.Of(CppLane) == b.Of(CppLane) && a.Of(GoLane) == b.Of(GoLane);
  }

  lemma ReportedLists(schedule: seq<Row>, context: Context, r: WorkloadRecord, outcomes: seq<Outcome>)
    requires IsSchedule(schedule) && Reports(schedule, r, outcomes)
    requires forall lane: Lane :: FullLists(schedule, context, r, lane)
    ensures ListsAfter(schedule, context, outcomes, EventCount(schedule)) == Lists(r.warmups, r.samples)
  {
    var n := EventCount(schedule);
    var taken := Taken(schedule, context, outcomes, n);
    ListsAreSpread(schedule, context, outcomes, n);
    forall lane: Lane
      ensures Spread(taken, Warmup).Of(lane) == r.warmups.Of(lane)
      ensures Spread(taken, Timed).Of(lane) == r.samples.Of(lane)
    {
      SpreadIsShare(taken, Warmup, lane);
      SpreadIsShare(taken, Timed, lane);
      assert FullLists(schedule, context, r, lane);
      AllRowsMatch(schedule, context, r, outcomes, n, lane);
    }
    SameLists(Spread(taken, Warmup), r.warmups);
    SameLists(Spread(taken, Timed), r.samples);
  }

  /** Some run in which every event succeeded, and was borne out by its evidence, leaves this record. */
  ghost predicate LeftByACompleteRun(schedule: seq<Row>, context: Context, r: WorkloadRecord)
    requires IsSchedule(schedule)
  {
    exists outcomes: seq<Outcome> ::
      && |outcomes| == EventCount(schedule) && AllSucceed(outcomes)
      && r == RecordAfter(r.id, schedule, context, outcomes, |outcomes|)
  }

  lemma TakenHavePassed(schedule: seq<Row>, context: Context, outcomes: seq<Outcome>, n: nat, phase: Phase, lane: Lane)
    requires IsSchedule(schedule) && n <= EventCount(schedule) && n <= |outcomes|
    requires forall i :: 0 <= i < n ==> outcomes[i].Success?
    ensures NoneFailed(Spread(Taken(schedule, context, outcomes, n), phase).Of(lane))
  {
    var taken := Taken(schedule, context, outcomes, n);
    var list := Spread(taken, phase).Of(lane);
    TakenAt(schedule, context, outcomes, n);
    SpreadIsShare(taken, phase, lane);
    forall k | 0 <= k < |list|
      ensures list[k].status == Passed
    {
      ShareComesFromEvents(taken, phase, lane, list[k]);
      var i :| 0 <= i < |taken| && taken[i].sample == list[k];
      assert taken[i] == EventAt(schedule, context, outcomes, i);
    }
  }

  /** What a run without failure leaves meets the schema. */
  lemma CompletedRunMeetsSchema(id: string, schedule: seq<Row>, context: Context, outcomes: seq<Outcome>)
    requires IsSchedule(schedule) && |outcomes| == EventCount(schedule)
    requires forall i :: 0 <= i < |outcomes| ==> outcomes[i].Success?
    ensures MeasuredSchema(RecordAfter(id, schedule, context, outcomes, |outcomes|))
  {
    ListsAreSpread(schedule, context, outcomes, |outcomes|);
    forall lane: Lane, phase: Phase
      ensures NoneFailed(Spread(Taken(schedule, context, outcomes, |outcomes|), phase).Of(lane))
    {
      TakenHavePassed(schedule, context, outcomes, |outcomes|, phase, lane);
    }
  }

  /** The records that meet the schema and that the measured validator accepts are exactly those that complete runs
      leave. */
  lemma MeasuredIffLeftByARun(schedule: seq<Row>, context: Context, r: WorkloadRecord)
    requires IsSchedule(schedule)
    ensures ValidMeasured(schedule, context, r) && MeasuredSchema(r) <==> LeftByACompleteRun(schedule, context, r)
  {
    if ValidMeasured(schedule, context, r) && MeasuredSchema(r) {
      forall lane: Lane
        ensures FullLists(schedule, context, r, lane)
      {
        assert InPlace(schedule, context, Warmup, lane, r.warmups.Of(lane), 2);
      }
      var outcomes := SomeOutcomesReport(schedule, context, r);
      ReportedLists(schedule, context, r, outcomes);
      assert outcomes[|outcomes| - 1].Success?;
      assert BlocksStarted(schedule, |outcomes|) == |schedule|;
      assert r == RecordAfter(r.id, schedule, context, outcomes, |outcomes|);
    }
    if LeftByACompleteRun(schedule, context, r) {
      var outcomes: seq<Outcome> :|
        && |outcomes| == EventCount(schedule) && AllSucceed(outcomes)
        && r == RecordAfter(r.id, schedule, context, outcomes, |outcomes|);
      CompletedRunIsValid(r.id, schedule, context, outcomes);
      CompletedRunMeetsSchema(r.id, schedule, context, outcomes);
    }
  }

  // ----- The correctness gate -----

  /** What the schema asks of a gate item: a lane that did not pass has a failed sample, and no other has. */
  ghost predicate ItemSchema(item: Item) {
    forall i :: 0 <= i < |item.implementations| ==>
      (item.implementations[i].passed <==> item.implementations[i].status == Passed)
  }

  ghost predicate GateSchema(items: seq<Item>) {
    forall w :: 0 <= w < |items| ==> ItemSchema(items[w])
  }

  /** Every lane passes, with the evidence the item keeps of it. */
  function PassingLanes(item: Item): (outcomes: seq<Outcome>)
    ensures |outcomes| == |item.implementations| && LanesPass(outcomes)
    ensures forall i :: 0 <= i < |outcomes| ==> outcomes[i] == Success(item.implementations[i].evidence)
  {
    seq(|item.implementations|, i requires 0 <= i < |item.implementations| =>
      Success(item.implementations[i].evidence))
  }

  lemma PassedItemIs(item: Item, id: string, buildMode: string, lanes: seq<string>)
    requires ValidItem(item, id, buildMode, lanes) && item.status == CompletedItem && ItemSchema(item)
    ensures var outcomes := PassingLanes(item);
      && |outcomes| == |lanes| && AllShown(outcomes, |outcomes|)
      && item == ItemFor(id, buildMode, lanes, outcomes)
  {
    var outcomes, n := PassingLanes(item), |lanes|;
    AttemptedIsUnique(outcomes, n);
    forall i | 0 <= i < n
      ensures item.implementations[i] == ImplementationFor(lanes[i], outcomes[i]) && Shown(outcomes[i])
    {
      assert item.implementations[i].passed && item.implementations[i].lane == lanes[i];
    }
    assert item.implementations == Implementations(lanes, outcomes, n);
    assert lanes[..n] == lanes;
  }

  function PassingItems(items: seq<Item>): (outcomes: seq<seq<Outcome>>)
    ensures |outcomes| == |items| && forall w :: 0 <= w < |items| ==> outcomes[w] == PassingLanes(items[w])
  {
    seq(|items|, w requires 0 <= w < |items| => PassingLanes(items[w]))
  }

  ghost predicate PassedItems(items: seq<Item>, ids: seq<string>, buildMode: string, lanes: seq<string>) {
    && |items| == |ids|
    && forall w :: 0 <= w < |items| ==>
      ValidItem(items[w], ids[w], buildMode, lanes) && items[w].status == CompletedItem && ItemSchema(items[w])
  }

  lemma PassedRest(items: seq<Item>, ids: seq<string>, buildMode: string, lanes: seq<string>)
    requires PassedItems(items, ids, buildMode, lanes) && items != []
    ensures PassedItems(items[1..], ids[1..], buildMode, lanes)
    ensures PassingItems(items)[1..] == PassingItems(items[1..])
  {
    forall w | 0 <= w < |items[1..]|
      ensures items[1..][w] == items[w + 1] && ids[1..][w] == ids[w + 1]
    {
    }
  }

  lemma PassingItemsPass(items: seq<Item>, ids: seq<string>, buildMode: string, lanes: seq<string>)
    requires PassedItems(items, ids, buildMode, lanes) && lanes != []
    ensures Shaped(ids, lanes, PassingItems(items))
    ensures AllLanesPass(PassingItems(items)) && GateShown(PassingItems(items))
  {
    forall w | 0 <= w < |items|
      ensures |PassingLanes(items[w])| == |lanes| && AllShown(PassingLanes(items[w]), |lanes|)
    {
      PassedItemIs(items[w], ids[w], buildMode, lanes);
    }
  }

  /** The items of a passed gate, from the outcomes they keep. */
  lemma {:induction false} PassedItemsAre(items: seq<Item>, ids: seq<string>, buildMode: string, lanes: seq<string>)
    requires PassedItems(items, ids, buildMode, lanes) && lanes != []
    requires Shaped(ids, lanes, PassingItems(items))
    ensures items == Gate(ids, buildMode, lanes, PassingItems(items))
  {
    if ids != [] {
      PassedItemIs(items[0], ids[0], buildMode, lanes);
      PassedRest(items, ids, buildMode, lanes);
      PassingItemsPass(items[1..], ids[1..], buildMode, lanes);
      PassedItemsAre(items[1..], ids[1..], buildMode, lanes);
      assert items == [items[0]] + items[1..];
    }
  }

  /** Some gate in which every lane passed, and was borne out by its evidence, leaves this evidence. */
  ghost predicate LeftByAPassingGate(items: seq<Item>, ids: seq<string>, buildMode: string, lanes: seq<string>) {
    exists outcomes :: Shaped(ids, lanes, outcomes) && AllLanesPass(outcomes) && GateShown(outcomes)
      && items == Gate(ids, buildMode, lanes, outcomes)
  }

  lemma {:induction false} GateMeetsSchema(
    ids: seq<string>, buildMode: string, lanes: seq<string>, outcomes: seq<seq<Outcome>>)
    requires Shaped(ids, lanes, outcomes)
    ensures GateSchema(Gate(ids, buildMode, lanes, outcomes))
  {
    if ids != [] {
      ItemMeetsSchema(ids[0], buildMode, lanes, outcomes[0]);
      GateMeetsSchema(ids[1..], buildMode, lanes, outcomes[1..]);
    }
  }

  lemma ItemMeetsSchema(id: string, buildMode: string, lanes: seq<string>, outcomes: seq<Outcome>)
    requires |outcomes| == |lanes|
    ensures ItemSchema(ItemFor(id, buildMode, lanes, outcomes))
  {
  }

  /** The evidence that meets the schema, is accepted and says that the gate passed is exactly what passing gates
      leave. */
  lemma PassedGateIffLeftByARun(items: seq<Item>, ids: seq<string>, buildMode: string, lanes: seq<string>)
    requires lanes != [] && ids != []
    ensures ValidCorrectness(items, ids, buildMode, lanes) && GatePassed(items, ids) && GateSchema(items)
      <==> LeftByAPassingGate(items, ids, buildMode, lanes)
  {
    if ValidCorrectness(items, ids, buildMode, lanes) && GatePassed(items, ids) && GateSchema(items) {
      PassingItemsPass(items, ids, buildMode, lanes);
      PassedItemsAre(items, ids, buildMode, lanes);
    }
    if LeftByAPassingGate(items, ids, buildMode, lanes) {
      var outcomes :| Shaped(ids, lanes, outcomes) && AllLanesPass(outcomes) && GateShown(outcomes)
        && items == Gate(ids, buildMode, lanes, outcomes);
      GateIsValidIff(ids, buildMode, lanes, outcomes);
      GatePassesIff(ids, buildMode, lanes, outcomes);
      GateMeetsSchema(ids, buildMode, lanes, outcomes);
    }
  }
}
