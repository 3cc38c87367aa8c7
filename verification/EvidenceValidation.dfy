/** The validator as it is run: loops that gather, count and compare. Each method answers whether the evidence is
    accepted; where the original raises, it answers false. */
module EvidenceValidation {
  import opened Wrappers
  import opened Ordering
  import opened Sampling
  import opened CorrectnessGate
  import opened BatchProtocol

  // ----- A workload that failed -----

  function CountFailed(events: seq<Observed>): nat {
    if events == [] then 0
    else (if events[0].sample.status.Failed? then 1 else 0) + CountFailed(events[1..])
  }

  lemma {:induction false} CountFailedAppend(a: seq<Observed>, b: seq<Observed>)
    ensures CountFailed(a + b) == CountFailed(a) + CountFailed(b)
  {
    if a == [] {
      assert a + b == b;
    } else {
      assert (a + b)[1..] == a[1..] + b;
      CountFailedAppend(a[1..], b);
    }
  }

  lemma {:induction false} CountFailedInsert(x: Observed, events: seq<Observed>)
    ensures CountFailed(Insert(EarlierOrSame, x, events))
         == (if x.sample.status.Failed? then 1 else 0) + CountFailed(events)
  {
    if events != [] {
      if EarlierOrSame(x, events[0]) {
        assert ([x] + events)[1..] == events;
      } else {
        CountFailedInsert(x, events[1..]);
        assert ([events[0]] + Insert(EarlierOrSame, x, events[1..]))[1..] == Insert(EarlierOrSame, x, events[1..]);
      }
    }
  }

  lemma {:induction false} CountFailedSort(events: seq<Observed>)
    ensures CountFailed(Sort(EarlierOrSame, events)) == CountFailed(events)
  {
    if events != [] {
      CountFailedSort(events[1..]);
      CountFailedInsert(events[0], Sort(EarlierOrSame, events[1..]));
    }
  }

  lemma {:induction false} NoneFailed(events: seq<Observed>)
    ensures CountFailed(events) == 0 <==> forall i :: 0 <= i < |events| ==> !events[i].sample.status.Failed?
  {
    if events != [] {
      NoneFailed(events[1..]);
      assert forall i :: 0 < i < |events| ==> events[i] == events[1..][i - 1];
      if forall i :: 0 <= i < |events| ==> !events[i].sample.status.Failed? {
        assert forall i :: 0 <= i < |events[1..]| ==> events[1..][i] == events[i + 1];
      }
    }
  }

  lemma OneFailedTail(events: seq<Observed>)
    requires events != []
    ensures (CountFailed(events) == 1 && events[|events| - 1].sample.status.Failed?) <==>
      forall i :: 0 <= i < |events| ==> (events[i].sample.status.Failed? <==> i == |events| - 1)
  {
    var n := |events| - 1;
    CountFailedAppend(events[..n], [events[n]]);
    assert events == events[..n] + [events[n]];
    NoneFailed(events[..n]);
    assert forall i :: 0 <= i < n ==> events[..n][i] == events[i];
  }

  ghost predicate AllAccounted(schedule: seq<Row>, context: Context, reason: Option<string>, events: seq<Observed>)
    requires IsSchedule(schedule)
  {
    forall i :: 0 <= i < |events| ==> Accounted(schedule, context, reason, events[i])
  }

  /** The samples of one lane: their provenance, and how many of them failed. */
  method CheckLane(schedule: seq<Row>, context: Context, r: WorkloadRecord, lane: Lane)
    returns (ok: bool, observed: seq<Observed>, failed: nat)
    requires IsSchedule(schedule)
    ensures ok <==> AllAccounted(schedule, context, r.failureReason, OfLane(r.warmups, r.samples, lane))
    ensures ok ==> observed == OfLane(r.warmups, r.samples, lane) && failed == CountFailed(observed)
  {
    var samples := r.warmups.Of(lane) + r.samples.Of(lane);
    ghost var expected := OfLane(r.warmups, r.samples, lane);
    observed, failed := [], 0;
    var i := 0;
    while i < |samples|
      invariant 0 <= i <= |samples| == |expected|
      invariant observed == expected[..i] && failed == CountFailed(observed)
      invariant AllAccounted(schedule, context, r.failureReason, observed)
    {
      var x := Observed(lane, samples[i]);
      assert expected[i] == x;
      if !Accounted(schedule, context, r.failureReason, x) {
        return false, observed, failed;
      }
      CountFailedAppend(observed, [x]);
      observed := observed + [x];
      if x.sample.status.Failed? {
        failed := failed + 1;
      }
      i := i + 1;
    }
    assert expected[..i] == expected;
    ok := true;
  }

  function GatheredUpTo(r: WorkloadRecord, k: nat): seq<Observed>
    requires k <= 5
  {
    if k == 0 then [] else GatheredUpTo(r, k - 1) + OfLane(r.warmups, r.samples, TIMED_LANES[k - 1])
  }

  lemma GatheredAll(r: WorkloadRecord)
    ensures GatheredUpTo(r, 5) == Gathered(r.warmups, r.samples)
  {
    assert GatheredUpTo(r, 1) == OfLane(r.warmups, r.samples, Candidate);
    assert GatheredUpTo(r, 2) == GatheredUpTo(r, 1) + OfLane(r.warmups, r.samples, MainLane);
    assert GatheredUpTo(r, 3) == GatheredUpTo(r, 2) + OfLane(r.warmups, r.samples, CLane);
    assert GatheredUpTo(r, 4) == GatheredUpTo(r, 3) + OfLane(r.warmups, r.samples, CppLane);
  }

  lemma {:induction false} LaneIsGathered(r: WorkloadRecord, k: nat, n: nat, x: Observed)
    requires k < n <= 5 && x in OfLane(r.warmups, r.samples, TIMED_LANES[k])
    ensures x in GatheredUpTo(r, n)
    decreases n
  {
    if k < n - 1 {
      LaneIsGathered(r, k, n - 1, x);
    }
  }

  /** All lanes in turn. */
  method GatherEvents(schedule: seq<Row>, context: Context, r: WorkloadRecord)
    returns (ok: bool, observed: seq<Observed>, failed: nat)
    requires IsSchedule(schedule)
    ensures ok <==> AllAccounted(schedule, context, r.failureReason, Gathered(r.warmups, r.samples))
    ensures ok ==> observed == Gathered(r.warmups, r.samples) && failed == CountFailed(observed)
  {
    GatheredAll(r);
    observed, failed := [], 0;
    var k := 0;
    while k < |TIMED_LANES|
      invariant 0 <= k <= 5
      invariant observed == GatheredUpTo(r, k) && failed == CountFailed(observed)
      invariant AllAccounted(schedule, context, r.failureReason, observed)
    {
      var accounted, more, count := CheckLane(schedule, context, r, TIMED_LANES[k]);
      if !accounted {
        ghost var lane := OfLane(r.warmups, r.samples, TIMED_LANES[k]);
        ghost var i :| 0 <= i < |lane| && !Accounted(schedule, context, r.failureReason, lane[i]);
        LaneIsGathered(r, k, 5, lane[i]);
        return false, observed, failed;
      }
      CountFailedAppend(observed, more);
      observed := observed + more;
      failed := failed + count;
      k := k + 1;
    }
    ok := true;
  }

  method CheckOrdinals(events: seq<Observed>) returns (ok: bool)
    ensures ok <==> forall i :: 0 <= i < |events| ==> Ordinal(events[i].sample) == i
  {
    var i := 0;
    while i < |events|
      invariant 0 <= i <= |events|
      invariant forall j :: 0 <= j < i ==> Ordinal(events[j].sample) == j
    {
      if Ordinal(events[i].sample) != i {
        return false;
      }
      i := i + 1;
    }
    ok := true;
  }

  lemma AccountedInAnyOrder(
    schedule: seq<Row>, context: Context, reason: Option<string>, events: seq<Observed>, sorted: seq<Observed>)
    requires IsSchedule(schedule) && multiset(events) == multiset(sorted)
    ensures AllAccounted(schedule, context, reason, events) <==>
      EachAccounted(schedule, context, reason, sorted)
  {
    forall x: Observed
      ensures x in events <==> x in sorted
    {
      SameElements(events, sorted, x);
    }
  }

  /** One failed event, at the end of a gapless prefix, and the blocks begun by then. */
  method CheckTail(schedule: seq<Row>, ghost context: Context, r: WorkloadRecord, events: seq<Observed>, failed: nat)
    returns (ok: bool)
    requires IsSchedule(schedule) && failed == CountFailed(events)
    requires EachAccounted(schedule, context, r.failureReason, events)
    ensures ok <==> AcceptsEvents(schedule, context, r, events)
  {
    if events == [] {
      return false;
    }
    OneFailedTail(events);
    var contiguous := CheckOrdinals(events);
    var last := events[|events| - 1];
    if failed != 1 || !contiguous || last.sample.status == Passed {
      return false;
    }
    assert last in events;
    ok := r.blockSchedule == if last.sample.phase == Timed then Blocks(schedule, last.sample.index) else [];
  }

  lemma NothingAccepted(schedule: seq<Row>, context: Context, r: WorkloadRecord)
    requires IsSchedule(schedule)
    requires !AllAccounted(schedule, context, r.failureReason, Gathered(r.warmups, r.samples))
    ensures !AcceptsEvents(schedule, context, r, Merged(r))
  {
    AccountedInAnyOrder(schedule, context, r.failureReason, Gathered(r.warmups, r.samples), Merged(r));
  }

  /** `validate_partial_workload`. */
  method ValidatePartialWorkload(schedule: seq<Row>, context: Context, r: WorkloadRecord) returns (ok: bool)
    requires IsSchedule(schedule)
    ensures ok <==> ValidPartial(schedule, context, r)
  {
    if !PartialHeader(schedule, context, r) {
      return false;
    }
    var accounted, observed, failed := GatherEvents(schedule, context, r);
    if !accounted {
      NothingAccepted(schedule, context, r);
      return false;
    }
    var events := Sort(EarlierOrSame, observed);
    AccountedInAnyOrder(schedule, context, r.failureReason, observed, events);
    CountFailedSort(observed);
    ok := CheckTail(schedule, context, r, events, failed);
  }

  // ----- A workload that completed -----

  predicate IsSampleOf(schedule: seq<Row>, context: Context, phase: Phase, lane: Lane, i: nat, s: Sample)
    requires IsSchedule(schedule) && i < |schedule|
  {
    && s.phase == phase
    && s.index == i + 1
    && s.position == PositionOf(schedule[i], lane) + 1
    && s.context == context
    && s.evidence.bound
  }

  /** The samples of one lane and phase, against the rows they should come from. */
  method CheckInPlace(
    schedule: seq<Row>, context: Context, phase: Phase, lane: Lane, list: seq<Sample>, rows: nat)
    returns (ok: bool)
    requires IsSchedule(schedule) && rows <= |schedule|
    ensures ok <==> InPlace(schedule, context, phase, lane, list, rows)
  {
    if |list| != rows {
      return false;
    }
    var i := 0;
    while i < rows
      invariant 0 <= i <= rows
      invariant forall j :: 0 <= j < i ==> IsSampleOf(schedule, context, phase, lane, j, list[j])
    {
      if !IsSampleOf(schedule, context, phase, lane, i, list[i]) {
        return false;
      }
      i := i + 1;
    }
    ok := true;
  }

  ghost predicate LaneInPlace(schedule: seq<Row>, context: Context, r: WorkloadRecord, lane: Lane)
    requires IsSchedule(schedule)
  {
    && InPlace(schedule, context, Warmup, lane, r.warmups.Of(lane), 2)
    && InPlace(schedule, context, Timed, lane, r.samples.Of(lane), |schedule|)
  }

  lemma EveryLaneIsTimed(lane: Lane)
    ensures exists k :: 0 <= k < 5 && TIMED_LANES[k] == lane
  {
    var k := match lane case Candidate => 0 case MainLane => 1 case CLane => 2 case CppLane => 3 case GoLane => 4;
    assert TIMED_LANES[k] == lane;
  }

  /** `validate_measured_workload`. */
  method ValidateMeasuredWorkload(schedule: seq<Row>, context: Context, r: WorkloadRecord) returns (ok: bool)
    requires IsSchedule(schedule)
    ensures ok <==> ValidMeasured(schedule, context, r)
  {
    if r.buildMode != context.buildMode || r.status != CompletedCollection || r.failureReason.Some?
      || r.warmupOrders != schedule[..2] || r.blockSchedule != Blocks(schedule, |schedule|) {
      return false;
    }
    var k := 0;
    while k < |TIMED_LANES|
      invariant 0 <= k <= 5
      invariant forall j :: 0 <= j < k ==> LaneInPlace(schedule, context, r, TIMED_LANES[j])
    {
      var lane := TIMED_LANES[k];
      var warmups := CheckInPlace(schedule, context, Warmup, lane, r.warmups.Of(lane), 2);
      var samples := CheckInPlace(schedule, context, Timed, lane, r.samples.Of(lane), |schedule|);
      if !warmups || !samples {
        return false;
      }
      k := k + 1;
    }
    forall lane: Lane
      ensures InPlace(schedule, context, Warmup, lane, r.warmups.Of(lane), 2)
      ensures InPlace(schedule, context, Timed, lane, r.samples.Of(lane), |schedule|)
    {
      EveryLaneIsTimed(lane);
    }
    ok := true;
  }

  // ----- The correctness gate -----

  /** Lane `i` passed, or it is the failed tail and gives the reason. */
  predicate LaneExplained(item: Item, lanes: seq<string>, i: nat)
    requires i < |item.implementations| && i < |lanes| && (item.status == FailedItem ==> item.failureReason.Some?)
  {
    var implementation := item.implementations[i];
    && implementation.lane == lanes[i]
    && if item.status == FailedItem && i == |item.implementations| - 1
       then IsFailedTail(implementation, item.failureReason.value)
       else implementation.passed && implementation.evidence.bound
  }

  /** One workload of the gate, lane by lane. */
  method ValidateItem(item: Item, id: string, buildMode: string, lanes: seq<string>) returns (ok: bool)
    ensures ok <==> ValidItem(item, id, buildMode, lanes)
  {
    var n := |item.attemptedLanes|;
    if item.id != id || item.buildMode != buildMode || item.lanes != lanes
      || n == 0 || n > |lanes| || item.attemptedLanes != lanes[..n] || |item.implementations| != n {
      return false;
    }
    if item.status == CompletedItem {
      if n != |lanes| || item.failureReason.Some? {
        return false;
      }
    } else if item.failureReason.None? || item.failureReason.value == "" {
      return false;
    }
    var i := 0;
    while i < n
      invariant 0 <= i <= n
      invariant forall j :: 0 <= j < i ==> LaneExplained(item, lanes, j)
    {
      if !LaneExplained(item, lanes, i) {
        return false;
      }
      i := i + 1;
    }
    assert forall j {:trigger item.implementations[j]} :: 0 <= j < n ==> LaneExplained(item, lanes, j);
    ok := true;
  }

  /** `validate_correctness_evidence`: whether the evidence is accepted, and the reason of its failed tail. */
  method ValidateCorrectnessEvidence(items: seq<Item>, ids: seq<string>, buildMode: string, lanes: seq<string>)
    returns (ok: bool, failure: Option<string>)
    ensures ok <==> ValidCorrectness(items, ids, buildMode, lanes)
    ensures ok ==> failure == FailureOf(items)
  {
    failure := None;
    if items == [] || |items| > |ids| {
      return false, None;
    }
    var w := 0;
    while w < |items|
      invariant 0 <= w <= |items|
      invariant forall v :: 0 <= v < w ==> ValidItem(items[v], ids[v], buildMode, lanes)
      invariant forall v :: 0 <= v < w && v < |items| - 1 ==> items[v].status == CompletedItem
      invariant failure == FailureOf(items[..w])
    {
      var item := items[w];
      var valid := ValidateItem(item, ids[w], buildMode, lanes);
      if !valid || (item.status == FailedItem && w != |items| - 1) {
        return false, None;
      }
      if item.status == FailedItem {
        failure := item.failureReason;
      }
      w := w + 1;
    }
    assert items[..w] == items;
    ok := failure.Some? || |items| == |ids|;
  }

  // ----- A batch, and the protocol -----

  method CheckWithin(samples: seq<Sample>, low: int, high: int) returns (ok: bool)
    ensures ok <==> forall s :: s in samples ==> Within(s, low, high)
  {
    var i := 0;
    while i < |samples|
      invariant 0 <= i <= |samples|
      invariant forall j :: 0 <= j < i ==> Within(samples[j], low, high)
    {
      if !Within(samples[i], low, high) {
        return false;
      }
      i := i + 1;
    }
    ok := true;
  }

  method CheckRecordWithin(r: WorkloadRecord, low: int, high: int) returns (ok: bool)
    ensures ok <==> SamplesWithin(r, low, high)
  {
    var k := 0;
    while k < |TIMED_LANES|
      invariant 0 <= k <= 5
      invariant forall j, s :: 0 <= j < k && s in r.warmups.Of(TIMED_LANES[j]) ==> Within(s, low, high)
      invariant forall j, s :: 0 <= j < k && s in r.samples.Of(TIMED_LANES[j]) ==> Within(s, low, high)
    {
      var lane := TIMED_LANES[k];
      var warmups := CheckWithin(r.warmups.Of(lane), low, high);
      var samples := CheckWithin(r.samples.Of(lane), low, high);
      if !warmups || !samples {
        return false;
      }
      k := k + 1;
    }
    forall lane: Lane, s: Sample | s in r.warmups.Of(lane) || s in r.samples.Of(lane)
      ensures Within(s, low, high)
    {
      EveryLaneIsTimed(lane);
    }
    ok := true;
  }

  method CheckBracketed(batch: Batch, now: int) returns (ok: bool)
    ensures ok <==> Bracketed(batch, now)
  {
    if !(batch.startedAt <= batch.before.capturedAt <= batch.after.capturedAt <= batch.finishedAt)
      || batch.finishedAt - batch.startedAt > DAY || batch.finishedAt > now + FIVE_MINUTES {
      return false;
    }
    var w := 0;
    while w < |batch.workloads|
      invariant 0 <= w <= |batch.workloads|
      invariant forall v :: 0 <= v < w ==>
        SamplesWithin(batch.workloads[v], batch.before.capturedAt, batch.after.capturedAt)
    {
      var within := CheckRecordWithin(batch.workloads[w], batch.before.capturedAt, batch.after.capturedAt);
      if !within {
        return false;
      }
      w := w + 1;
    }
    ok := true;
  }

  /** The first `n` workloads, as completed ones. */
  method ValidateMeasured(schedule: seq<Row>, context: Context, workloads: seq<WorkloadRecord>, n: nat)
    returns (ok: bool)
    requires IsSchedule(schedule) && n <= |workloads|
    ensures ok <==> MeasuredUpTo(schedule, context, workloads, n)
  {
    var w := 0;
    while w < n
      invariant 0 <= w <= n
      invariant MeasuredUpTo(schedule, context, workloads, w)
    {
      var valid := ValidateMeasuredWorkload(schedule, context, workloads[w]);
      if workloads[w].status != CompletedCollection || !valid {
        return false;
      }
      w := w + 1;
    }
    ok := true;
  }

  method ValidateFailedLast(schedule: seq<Row>, context: Context, r: WorkloadRecord) returns (ok: bool)
    requires IsSchedule(schedule)
    ensures ok <==> FailedLast(schedule, context, r)
  {
    var failed := ValidatePartialWorkload(schedule, context, r);
    ok := r.status == FailedCollection && failed;
  }

  method ValidateWorkloads(rules: Rules, context: Context, batch: Batch) returns (ok: bool)
    requires WellFormedRules(rules)
    ensures ok <==> ValidWorkloads(rules, context, batch)
  {
    var ws := batch.workloads;
    if |ws| > |rules.workloadIds| || exists w :: 0 <= w < |ws| && ws[w].id != rules.workloadIds[w] {
      return false;
    }
    if CompleteRaw(rules, ws) {
      ok := ValidateMeasured(rules.schedule, context, ws, |ws|);
      return ok && batch.stability == Some(rules.stability(ws));
    }
    if batch.stability.Some? || ws == [] {
      return batch.stability.None?;
    }
    var completed := ValidateMeasured(rules.schedule, context, ws, |ws| - 1);
    var failed := ValidateFailedLast(rules.schedule, context, ws[|ws| - 1]);
    ok := completed && failed;
  }

  method ValidateBatch(rules: Rules, buildMode: string, now: int, batch: Batch, attemptIndex: nat, completed: nat)
    returns (ok: bool)
    requires WellFormedRules(rules)
    ensures ok <==> ValidBatch(rules, buildMode, now, batch, attemptIndex, completed)
  {
    if batch.buildMode != buildMode || batch.attemptIndex != attemptIndex || batch.batchIndex != completed + 1
      || batch.authorization != rules.authorization
      || !rules.genuine(batch.before) || !rules.genuine(batch.after) || !ValidStatus(rules, batch) {
      return false;
    }
    var workloads := ValidateWorkloads(rules, Context(buildMode, completed + 1, attemptIndex), batch);
    var bracketed := CheckBracketed(batch, now);
    ok := workloads && bracketed;
  }

  lemma CountStatusOfLast(batches: seq<Batch>, b: nat, status: BatchStatus)
    requires b < |batches|
    ensures CountStatus(batches[..b + 1], status)
         == CountStatus(batches[..b], status) + (if batches[b].status == status then 1 else 0)
    decreases b
  {
    if b > 0 {
      assert batches[..b + 1][1..] == batches[1..][..b] && batches[..b][1..] == batches[1..][..b - 1];
      CountStatusOfLast(batches[1..], b - 1, status);
    }
  }

  /** What the loop over the batches has established after `n` of them. */
  ghost predicate ValidUpTo(
    rules: Rules, buildMode: string, now: int, batches: seq<Batch>, n: nat,
    completed: nat, invalidated: nat, seen: set<string>)
    requires WellFormedRules(rules) && n <= |batches|
  {
    && (forall b :: 0 <= b < n ==>
      ValidBatch(rules, buildMode, now, batches[b], b + 1, CountStatus(batches[..b], CompletedBatch)))
    && (forall b :: 0 <= b < n ==> CountStatus(batches[..b], CompletedBatch) != 2)
    && completed == CountStatus(batches[..n], CompletedBatch)
    && invalidated == CountStatus(batches[..n], InvalidatedBatch)
    && FreshSnapshots(batches[..n])
    && seen == Shas(batches[..n])
  }

  ghost function Shas(batches: seq<Batch>): (r: set<string>)
    ensures forall sha :: sha in r <==>
      exists b :: 0 <= b < |batches| && sha in {batches[b].before.sha, batches[b].after.sha}
  {
    if batches == [] then {}
    else
      var n := |batches| - 1;
      assert forall b :: 0 <= b < n ==> batches[b] == batches[..n][b];
      Shas(batches[..n]) + {batches[n].before.sha, batches[n].after.sha}
  }

  lemma ShasGrow(batches: seq<Batch>, n: nat)
    requires n < |batches|
    ensures Shas(batches[..n + 1]) == Shas(batches[..n]) + {batches[n].before.sha, batches[n].after.sha}
  {
    assert batches[..n + 1][..n] == batches[..n];
  }

  lemma NotSeen(batches: seq<Batch>, sha: string)
    ensures sha !in Shas(batches) <==>
      forall b :: 0 <= b < |batches| ==> sha != batches[b].before.sha && sha != batches[b].after.sha
  {
  }

  lemma FreshAfter(before: seq<Batch>, batch: Batch)
    requires FreshSnapshots(before)
    requires batch.before.sha !in Shas(before) && batch.after.sha !in Shas(before) + {batch.before.sha}
    ensures FreshSnapshots(before + [batch])
  {
    NotSeen(before, batch.before.sha);
    NotSeen(before, batch.after.sha);
  }

  lemma FreshBefore(before: seq<Batch>, batch: Batch)
    requires FreshSnapshots(before + [batch])
    ensures batch.before.sha !in Shas(before) && batch.after.sha !in Shas(before) + {batch.before.sha}
  {
    var all, n := before + [batch], |before|;
    assert all[n] == batch;
    forall b | 0 <= b < n
      ensures {before[b].before.sha, before[b].after.sha} !! {batch.before.sha, batch.after.sha}
    {
      assert all[b] == before[b];
    }
    NotSeen(before, batch.before.sha);
    NotSeen(before, batch.after.sha);
  }

  lemma {:induction false} FreshPrefix(batches: seq<Batch>, n: nat)
    requires n <= |batches| && FreshSnapshots(batches)
    ensures FreshSnapshots(batches[..n])
  {
  }

  lemma FreshMeansUnseen(batches: seq<Batch>, n: nat)
    requires n < |batches|
    ensures FreshSnapshots(batches) ==>
      && batches[n].before.sha !in Shas(batches[..n])
      && batches[n].after.sha !in Shas(batches[..n]) + {batches[n].before.sha}
  {
    if FreshSnapshots(batches) {
      FreshPrefix(batches, n + 1);
      assert batches[..n + 1] == batches[..n] + [batches[n]];
      FreshBefore(batches[..n], batches[n]);
    }
  }

  lemma FreshGrows(batches: seq<Batch>, n: nat)
    requires n < |batches| && FreshSnapshots(batches[..n])
    requires batches[n].before.sha !in Shas(batches[..n])
      && batches[n].after.sha !in Shas(batches[..n]) + {batches[n].before.sha}
    ensures FreshSnapshots(batches[..n + 1])
  {
    assert batches[..n + 1] == batches[..n] + [batches[n]];
    FreshAfter(batches[..n], batches[n]);
  }

  lemma UpToGrows(
    rules: Rules, buildMode: string, now: int, batches: seq<Batch>, n: nat,
    completed: nat, invalidated: nat, seen: set<string>)
    requires WellFormedRules(rules) && n < |batches| && completed != 2
    requires ValidUpTo(rules, buildMode, now, batches, n, completed, invalidated, seen)
    requires ValidBatch(rules, buildMode, now, batches[n], n + 1, completed)
    requires batches[n].before.sha !in seen && batches[n].after.sha !in seen + {batches[n].before.sha}
    ensures ValidUpTo(
      rules, buildMode, now, batches, n + 1,
      if batches[n].status == CompletedBatch then completed + 1 else completed,
      if batches[n].status == InvalidatedBatch then invalidated + 1 else invalidated,
      seen + {batches[n].before.sha, batches[n].after.sha})
  {
    CountStatusOfLast(batches, n, CompletedBatch);
    CountStatusOfLast(batches, n, InvalidatedBatch);
    ShasGrow(batches, n);
    FreshGrows(batches, n);
  }

  /** A batch the loop refuses makes the whole list invalid. */
  lemma Refused(
    rules: Rules, buildMode: string, now: int, batches: seq<Batch>, n: nat,
    completed: nat, invalidated: nat, seen: set<string>)
    requires WellFormedRules(rules) && n < |batches|
    requires ValidUpTo(rules, buildMode, now, batches, n, completed, invalidated, seen)
    requires
      || completed == 2
      || !ValidBatch(rules, buildMode, now, batches[n], n + 1, completed)
      || batches[n].before.sha in seen || batches[n].after.sha in seen + {batches[n].before.sha}
    ensures !ValidBatches(rules, buildMode, now, batches)
  {
    FreshMeansUnseen(batches, n);
    assert CountStatus(batches[..n], CompletedBatch) == completed;
  }

  /** The loop over the batches, counting the completed and the invalidated ones and collecting snapshots. */
  method ValidateBatches(rules: Rules, buildMode: string, now: int, batches: seq<Batch>)
    returns (ok: bool, completed: nat, invalidated: nat, seen: set<string>)
    requires WellFormedRules(rules)
    ensures ok <==> ValidBatches(rules, buildMode, now, batches)
    ensures ok ==>
      && completed == CountStatus(batches, CompletedBatch)
      && invalidated == CountStatus(batches, InvalidatedBatch)
      && seen == Shas(batches)
  {
    completed, invalidated, seen := 0, 0, {};
    var n := 0;
    while n < |batches|
      invariant 0 <= n <= |batches|
      invariant ValidUpTo(rules, buildMode, now, batches, n, completed, invalidated, seen)
    {
      var batch := batches[n];
      var valid := ValidateBatch(rules, buildMode, now, batch, n + 1, completed);
      if completed == 2 || !valid || batch.before.sha in seen || batch.after.sha in seen + {batch.before.sha} {
        Refused(rules, buildMode, now, batches, n, completed, invalidated, seen);
        return false, completed, invalidated, seen;
      }
      UpToGrows(rules, buildMode, now, batches, n, completed, invalidated, seen);
      seen := seen + {batch.before.sha, batch.after.sha};
      if batch.status == CompletedBatch {
        completed := completed + 1;
      } else if batch.status == InvalidatedBatch {
        invalidated := invalidated + 1;
      }
      n := n + 1;
    }
    assert batches[..n] == batches;
    ok := true;
  }

  /** `validate_protocol`: whether the record is accepted, and the snapshots it used. */
  method ValidateProtocol(rules: Rules, buildMode: string, now: int, p: Protocol)
    returns (ok: bool, seen: set<string>)
    requires WellFormedRules(rules)
    ensures ok <==> ValidProtocol(rules, buildMode, now, p)
    ensures ok ==> seen == Shas(p.batches)
  {
    if p.buildMode != buildMode {
      return false, {};
    }
    var failure := None;
    if p.correctness != [] {
      var valid, reason :=
        ValidateCorrectnessEvidence(p.correctness, rules.workloadIds, buildMode, rules.formalLanes);
      if !valid {
        return false, {};
      }
      failure := reason;
    }
    if |p.batches| > 3 {
      return false, {};
    }
    var valid, completed, invalidated, shas := ValidateBatches(rules, buildMode, now, p.batches);
    if !valid || invalidated > 2 {
      return false, {};
    }
    seen := shas;
    match p.status {
      case CompletedProtocol =>
        ok := |p.correctness| == |rules.workloadIds| && failure == None
          && completed == 2 && invalidated <= 1
          && p.verdict == (if CompletedBatchesPass(p.batches) then PassVerdict else FailVerdict);
      case IneligibleProtocol =>
        if failure.Some? {
          ok := p.batches == [] && p.reason == "formal correctness gate failed: " + failure.value;
        } else {
          ok := completed != 2 && invalidated == 2;
        }
        ok := ok && p.verdict == NotEvaluated;
      case UnavailableProtocol =>
        ok := p.batches == [] && p.verdict == NotEvaluated;
    }
  }
}
