/** The correctness gate that precedes measurement, and the check of its evidence. */
module CorrectnessGate {
  import opened Wrappers
  import opened Sampling

  /** What one lane did, with the status and the evidence of its sample. */
  datatype Implementation = Implementation(lane: string, passed: bool, status: SampleStatus, evidence: Evidence)

  datatype ItemStatus = CompletedItem | FailedItem

  datatype Item = Item(
    id: string,
    buildMode: string,
    lanes: seq<string>,
    attemptedLanes: seq<string>,
    status: ItemStatus,
    failureReason: Option<string>,
    implementations: seq<Implementation>)

  /** The gate has a prefix of its own for exceptions. */
  function GateStatusOf(outcome: Outcome): SampleStatus {
    StatusUnder("correctness collector failed before producing a sample: ", outcome)
  }

  function ImplementationFor(lane: string, outcome: Outcome): Implementation {
    Implementation(lane, outcome.Success?, GateStatusOf(outcome), outcome.evidence)
  }

  /** How many lanes are attempted: up to and including the first that fails. */
  function Attempted(outcomes: seq<Outcome>): (n: nat)
    ensures n <= |outcomes| && (outcomes != [] ==> n > 0)
  {
    if outcomes == [] then 0
    else if !outcomes[0].Success? then 1
    else 1 + Attempted(outcomes[1..])
  }

  lemma {:induction false} AttemptedStops(outcomes: seq<Outcome>)
    ensures var n := Attempted(outcomes);
      && (forall i :: 0 <= i < n - 1 ==> outcomes[i].Success?)
      && (n < |outcomes| ==> n > 0 && !outcomes[n - 1].Success?)
  {
    if outcomes != [] && outcomes[0].Success? {
      AttemptedStops(outcomes[1..]);
      assert forall i :: 0 < i < |outcomes| ==> outcomes[i] == outcomes[1..][i - 1];
    }
  }

  function Implementations(lanes: seq<string>, outcomes: seq<Outcome>, n: nat): (r: seq<Implementation>)
    requires n <= |lanes| && n <= |outcomes|
    ensures |r| == n && forall i :: 0 <= i < n ==> r[i] == ImplementationFor(lanes[i], outcomes[i])
  {
    seq(n, i requires 0 <= i < n => ImplementationFor(lanes[i], outcomes[i]))
  }

  /** The evidence of one workload whose lanes would report `outcomes`. */
  function ItemFor(id: string, buildMode: string, lanes: seq<string>, outcomes: seq<Outcome>): Item
    requires |outcomes| == |lanes|
  {
    var n := Attempted(outcomes);
    var failed := n > 0 && !outcomes[n - 1].Success?;
    Item(
      id, buildMode, lanes, lanes[..n],
      if failed then FailedItem else CompletedItem,
      if failed then Some(GateStatusOf(outcomes[n - 1]).message) else None,
      Implementations(lanes, outcomes, n))
  }

  /** A failed item names the collector's own message, or that of another exception under a prefix of the gate's. */
  lemma GateFailureIsNamed(id: string, buildMode: string, lanes: seq<string>, outcomes: seq<Outcome>)
    requires |outcomes| == |lanes| && lanes != []
    ensures ItemFor(id, buildMode, lanes, outcomes).failureReason
      == match outcomes[Attempted(outcomes) - 1]
         case Success(_) => None
         case SampleError(message, _) => Some(message)
         case OtherError(message, _) =>
           Some("correctness collector failed before producing a sample: " + message)
  {
  }

  /** One list of outcomes for each workload, one outcome for each lane. */
  ghost predicate Shaped(ids: seq<string>, lanes: seq<string>, outcomes: seq<seq<Outcome>>) {
    |outcomes| == |ids| && lanes != [] && forall w :: 0 <= w < |outcomes| ==> |outcomes[w]| == |lanes|
  }

  /** Workloads in order, up to and including the first that fails. */
  function Gate(ids: seq<string>, buildMode: string, lanes: seq<string>, outcomes: seq<seq<Outcome>>): seq<Item>
    requires Shaped(ids, lanes, outcomes)
  {
    if ids == [] then []
    else
      var item := ItemFor(ids[0], buildMode, lanes, outcomes[0]);
      if item.status == FailedItem then [item]
      else [item] + Gate(ids[1..], buildMode, lanes, outcomes[1..])
  }

  method RunLanes(id: string, buildMode: string, lanes: seq<string>, outcomes: seq<Outcome>) returns (item: Item)
    requires |outcomes| == |lanes|
    ensures item == ItemFor(id, buildMode, lanes, outcomes)
  {
    var implementations: seq<Implementation> := [];
    var attempted: seq<string> := [];
    var failureReason: Option<string> := None;
    var n := 0;
    while n < |lanes| && failureReason.None?
      invariant 0 <= n <= |lanes| && attempted == lanes[..n]
      invariant implementations == Implementations(lanes, outcomes, n)
      invariant forall i :: 0 <= i < n - 1 ==> outcomes[i].Success?
      invariant failureReason ==
        if n > 0 && !outcomes[n - 1].Success? then Some(GateStatusOf(outcomes[n - 1]).message) else None
      decreases |lanes| - n
    {
      attempted := attempted + [lanes[n]];
      implementations := implementations + [ImplementationFor(lanes[n], outcomes[n])];
      if !outcomes[n].Success? {
        failureReason := Some(GateStatusOf(outcomes[n]).message);
      }
      n := n + 1;
    }
    AttemptedIsUnique(outcomes, n);
    item := Item(
      id, buildMode, lanes, attempted, if failureReason.Some? then FailedItem else CompletedItem, failureReason,
      implementations);
  }

  lemma {:induction false} AttemptedIsUnique(outcomes: seq<Outcome>, n: nat)
    requires n <= |outcomes|
    requires forall i :: 0 <= i < n - 1 ==> outcomes[i].Success?
    requires n < |outcomes| ==> n > 0 && !outcomes[n - 1].Success?
    ensures n == Attempted(outcomes)
  {
    if outcomes != [] && outcomes[0].Success? && n > 0 {
      AttemptedIsUnique(outcomes[1..], n - 1);
    }
  }

  lemma GateStep(
    ids: seq<string>, buildMode: string, lanes: seq<string>, outcomes: seq<seq<Outcome>>, w: nat, results: seq<Item>)
    requires Shaped(ids, lanes, outcomes) && w < |ids|
    ensures Shaped(ids[w..], lanes, outcomes[w..]) && Shaped(ids[w + 1..], lanes, outcomes[w + 1..])
    ensures var item := ItemFor(ids[w], buildMode, lanes, outcomes[w]);
      results + Gate(ids[w..], buildMode, lanes, outcomes[w..])
        == if item.status == FailedItem then results + [item]
           else results + [item] + Gate(ids[w + 1..], buildMode, lanes, outcomes[w + 1..])
  {
    assert ids[w..][1..] == ids[w + 1..] && outcomes[w..][1..] == outcomes[w + 1..];
    assert ids[w..][0] == ids[w] && outcomes[w..][0] == outcomes[w];
  }

  method CorrectnessGate(ids: seq<string>, buildMode: string, lanes: seq<string>, outcomes: seq<seq<Outcome>>)
    returns (results: seq<Item>)
    requires Shaped(ids, lanes, outcomes)
    ensures results == Gate(ids, buildMode, lanes, outcomes)
  {
    results := [];
    var w := 0;
    assert ids[0..] == ids && outcomes[0..] == outcomes;
    while w < |ids|
      invariant 0 <= w <= |ids|
      invariant Shaped(ids[w..], lanes, outcomes[w..])
      invariant results + Gate(ids[w..], buildMode, lanes, outcomes[w..]) == Gate(ids, buildMode, lanes, outcomes)
    {
      GateStep(ids, buildMode, lanes, outcomes, w, results);
      var item := RunLanes(ids[w], buildMode, lanes, outcomes[w]);
      results := results + [item];
      if item.status == FailedItem {
        return;
      }
      w := w + 1;
    }
  }

  // ----- The validator -----

  /** A lane that did not pass, whose sample says that it failed, and why. */
  predicate IsFailedTail(implementation: Implementation, reason: string) {
    !implementation.passed && implementation.status == Failed(reason) && implementation.evidence.failureBound
  }

  /** The lanes attempted are a prefix, all but a failed tail passed, and the tail carries the reason. Only the
      tail's sample is asked for its status. */
  ghost predicate ValidItem(item: Item, id: string, buildMode: string, lanes: seq<string>) {
    var n := |item.attemptedLanes|;
    && item.id == id && item.buildMode == buildMode && item.lanes == lanes
    && 0 < n <= |lanes| && item.attemptedLanes == lanes[..n]
    && |item.implementations| == n
    && (forall i :: 0 <= i < n ==> item.implementations[i].lane == lanes[i])
    && (forall i :: 0 <= i < n - 1 ==> item.implementations[i].passed && item.implementations[i].evidence.bound)
    && var tail := item.implementations[n - 1];
    match item.status
    case CompletedItem => n == |lanes| && item.failureReason == None && tail.passed && tail.evidence.bound
    case FailedItem =>
      && item.failureReason.Some? && item.failureReason.value != ""
      && IsFailedTail(tail, item.failureReason.value)
  }

  /** A nonempty prefix of the workloads, the last of which may have failed; without a failure, all of them. */
  ghost predicate ValidCorrectness(items: seq<Item>, ids: seq<string>, buildMode: string, lanes: seq<string>) {
    && 0 < |items| <= |ids|
    && (forall w :: 0 <= w < |items| ==> ValidItem(items[w], ids[w], buildMode, lanes))
    && (forall w :: 0 <= w < |items| - 1 ==> items[w].status == CompletedItem)
    && (items[|items| - 1].status == CompletedItem ==> |items| == |ids|)
  }

  function FailureOf(items: seq<Item>): Option<string> {
    if items == [] then None else items[|items| - 1].failureReason
  }

  ghost predicate OutspokenGate(outcomes: seq<seq<Outcome>>) {
    forall w :: 0 <= w < |outcomes| ==> Outspoken(outcomes[w])
  }

  ghost predicate LanesPass(outcomes: seq<Outcome>) {
    forall i :: 0 <= i < |outcomes| ==> outcomes[i].Success?
  }

  ghost predicate AllLanesPass(outcomes: seq<seq<Outcome>>) {
    forall w :: 0 <= w < |outcomes| ==> LanesPass(outcomes[w])
  }

  /** What the validator asks of the `i`-th lane attempted. */
  ghost predicate LaneAccepted(item: Item, i: nat)
    requires i < |item.implementations|
  {
    if item.status == FailedItem && i == |item.implementations| - 1
    then item.failureReason.Some? && IsFailedTail(item.implementations[i], item.failureReason.value)
    else item.implementations[i].passed && item.implementations[i].evidence.bound
  }

  lemma LaneIsAcceptedIff(id: string, buildMode: string, lanes: seq<string>, outcomes: seq<Outcome>, i: nat)
    requires |outcomes| == |lanes| && i < Attempted(outcomes)
    ensures LaneAccepted(ItemFor(id, buildMode, lanes, outcomes), i) <==> Shown(outcomes[i])
  {
    AttemptedStops(outcomes);
    assert ItemFor(id, buildMode, lanes, outcomes).implementations[i] == ImplementationFor(lanes[i], outcomes[i]);
  }

  /** An item is valid if it is headed right and all its lanes are accepted. */
  lemma LanesAccepted(item: Item, id: string, buildMode: string, lanes: seq<string>)
    requires item.id == id && item.buildMode == buildMode && item.lanes == lanes
    requires 0 < |item.attemptedLanes| <= |lanes| && item.attemptedLanes == lanes[..|item.attemptedLanes|]
    requires |item.implementations| == |item.attemptedLanes|
    requires forall i :: 0 <= i < |item.implementations| ==> item.implementations[i].lane == lanes[i]
    requires if item.status == CompletedItem then |item.attemptedLanes| == |lanes| && item.failureReason == None
      else item.failureReason.Some? && item.failureReason.value != ""
    ensures ValidItem(item, id, buildMode, lanes)
      <==> forall i :: 0 <= i < |item.implementations| ==> LaneAccepted(item, i)
  {
    if ValidItem(item, id, buildMode, lanes) {
      forall i | 0 <= i < |item.implementations|
        ensures LaneAccepted(item, i)
      {
      }
    }
    if forall i :: 0 <= i < |item.implementations| ==> LaneAccepted(item, i) {
      var n := |item.implementations|;
      assert LaneAccepted(item, n - 1);
      forall i | 0 <= i < n - 1
        ensures item.implementations[i].passed && item.implementations[i].evidence.bound
      {
        assert LaneAccepted(item, i);
      }
    }
  }

  lemma ItemIsValidIff(id: string, buildMode: string, lanes: seq<string>, outcomes: seq<Outcome>)
    requires |outcomes| == |lanes| && lanes != [] && Outspoken(outcomes)
    ensures ValidItem(ItemFor(id, buildMode, lanes, outcomes), id, buildMode, lanes)
      <==> AllShown(outcomes, Attempted(outcomes))
  {
    AttemptedStops(outcomes);
    LanesAccepted(ItemFor(id, buildMode, lanes, outcomes), id, buildMode, lanes);
    forall i | 0 <= i < Attempted(outcomes)
      ensures LaneAccepted(ItemFor(id, buildMode, lanes, outcomes), i) <==> Shown(outcomes[i])
    {
      LaneIsAcceptedIff(id, buildMode, lanes, outcomes, i);
    }
  }

  /** The gate gets to workload `w`: every lane of those before it passed. */
  ghost predicate GateReaches(outcomes: seq<seq<Outcome>>, w: nat)
    requires w <= |outcomes|
  {
    forall v :: 0 <= v < w ==> LanesPass(outcomes[v])
  }

  /** Every lane the gate attempts is borne out by its evidence. */
  ghost predicate GateShown(outcomes: seq<seq<Outcome>>) {
    forall w :: 0 <= w < |outcomes| && GateReaches(outcomes, w) ==> AllShown(outcomes[w], Attempted(outcomes[w]))
  }

  lemma GateShownFromFirst(outcomes: seq<seq<Outcome>>)
    requires outcomes != []
    ensures GateShown(outcomes) <==>
      && AllShown(outcomes[0], Attempted(outcomes[0]))
      && (LanesPass(outcomes[0]) ==> GateShown(outcomes[1..]))
  {
    var rest := outcomes[1..];
    assert GateReaches(outcomes, 0);
    if LanesPass(outcomes[0]) {
      forall w | 0 <= w < |rest|
        ensures GateReaches(rest, w) <==> GateReaches(outcomes, w + 1)
      {
        assert forall v :: 0 <= v < w ==> rest[v] == outcomes[v + 1];
        assert forall v :: 0 < v < w + 1 ==> outcomes[v] == rest[v - 1];
      }
      if GateShown(outcomes) {
        forall w | 0 <= w < |rest| && GateReaches(rest, w)
          ensures AllShown(rest[w], Attempted(rest[w]))
        {
          assert rest[w] == outcomes[w + 1] && GateReaches(outcomes, w + 1);
        }
      }
      if GateShown(rest) {
        forall w | 0 < w < |outcomes| && GateReaches(outcomes, w)
          ensures AllShown(outcomes[w], Attempted(outcomes[w]))
        {
          assert outcomes[w] == rest[w - 1] && GateReaches(rest, w - 1);
        }
      }
    }
  }

  lemma ItemCompletesIff(id: string, buildMode: string, lanes: seq<string>, outcomes: seq<Outcome>)
    requires |outcomes| == |lanes| && lanes != []
    ensures ItemFor(id, buildMode, lanes, outcomes).status == CompletedItem <==> LanesPass(outcomes)
  {
    var n := Attempted(outcomes);
    AttemptedStops(outcomes);
    if LanesPass(outcomes) {
      assert outcomes[n - 1].Success?;
    }
  }

  lemma ValidTail(items: seq<Item>, item: Item, ids: seq<string>, buildMode: string, lanes: seq<string>)
    requires |ids| > 1 && ValidItem(item, ids[0], buildMode, lanes) && item.status == CompletedItem
    requires ValidCorrectness(items, ids[1..], buildMode, lanes)
    ensures ValidCorrectness([item] + items, ids, buildMode, lanes)
  {
    var all := [item] + items;
    forall w | 0 <= w < |all|
      ensures ValidItem(all[w], ids[w], buildMode, lanes)
      ensures w < |all| - 1 ==> all[w].status == CompletedItem
    {
      if w > 0 {
        assert all[w] == items[w - 1] && ids[w] == ids[1..][w - 1];
      }
    }
  }

  lemma TailIsValid(items: seq<Item>, item: Item, ids: seq<string>, buildMode: string, lanes: seq<string>)
    requires |ids| > 1 && items != [] && ValidCorrectness([item] + items, ids, buildMode, lanes)
    ensures ValidItem(item, ids[0], buildMode, lanes) && ValidCorrectness(items, ids[1..], buildMode, lanes)
  {
    var all := [item] + items;
    assert all[0] == item && all[|items|] == items[|items| - 1];
    forall w | 0 <= w < |items|
      ensures ValidItem(items[w], ids[1..][w], buildMode, lanes)
      ensures w < |items| - 1 ==> items[w].status == CompletedItem
    {
      assert all[w + 1] == items[w] && ids[w + 1] == ids[1..][w];
      assert ValidItem(all[w + 1], ids[w + 1], buildMode, lanes);
    }
  }

  lemma ValidTailIff(items: seq<Item>, item: Item, ids: seq<string>, buildMode: string, lanes: seq<string>)
    requires |ids| > 1 && item.status == CompletedItem && items != []
    ensures ValidCorrectness([item] + items, ids, buildMode, lanes) <==>
      ValidItem(item, ids[0], buildMode, lanes) && ValidCorrectness(items, ids[1..], buildMode, lanes)
  {
    if ValidCorrectness([item] + items, ids, buildMode, lanes) {
      TailIsValid(items, item, ids, buildMode, lanes);
    }
    if ValidItem(item, ids[0], buildMode, lanes) && ValidCorrectness(items, ids[1..], buildMode, lanes) {
      ValidTail(items, item, ids, buildMode, lanes);
    }
  }

  lemma ValidAlone(item: Item, ids: seq<string>, buildMode: string, lanes: seq<string>)
    requires ids != [] && (item.status == CompletedItem ==> |ids| == 1)
    ensures ValidCorrectness([item], ids, buildMode, lanes) <==> ValidItem(item, ids[0], buildMode, lanes)
  {
  }

  /** Whatever the lanes do, the gate leaves evidence its validator accepts, if and only if every lane attempted is
      borne out by its evidence. */
  lemma {:induction false} GateIsValidIff(
    ids: seq<string>, buildMode: string, lanes: seq<string>, outcomes: seq<seq<Outcome>>)
    requires Shaped(ids, lanes, outcomes) && ids != [] && OutspokenGate(outcomes)
    ensures ValidCorrectness(Gate(ids, buildMode, lanes, outcomes), ids, buildMode, lanes) <==> GateShown(outcomes)
  {
    var item := ItemFor(ids[0], buildMode, lanes, outcomes[0]);
    ItemIsValidIff(ids[0], buildMode, lanes, outcomes[0]);
    ItemCompletesIff(ids[0], buildMode, lanes, outcomes[0]);
    GateShownFromFirst(outcomes);
    if item.status == CompletedItem && |ids| > 1 {
      GateIsValidIff(ids[1..], buildMode, lanes, outcomes[1..]);
      ValidTailIff(Gate(ids[1..], buildMode, lanes, outcomes[1..]), item, ids, buildMode, lanes);
    } else {
      assert Gate(ids, buildMode, lanes, outcomes) == [item];
      ValidAlone(item, ids, buildMode, lanes);
    }
  }

  predicate GatePassed(items: seq<Item>, ids: seq<string>) {
    |items| == |ids| && forall w :: 0 <= w < |items| ==> items[w].status == CompletedItem
  }

  lemma AllLanesFromFirst(outcomes: seq<seq<Outcome>>)
    requires outcomes != []
    ensures AllLanesPass(outcomes) <==> LanesPass(outcomes[0]) && AllLanesPass(outcomes[1..])
  {
    assert forall w :: 0 < w < |outcomes| ==> outcomes[w] == outcomes[1..][w - 1];
    if AllLanesPass(outcomes) {
      assert forall w :: 0 <= w < |outcomes[1..]| ==> outcomes[1..][w] == outcomes[w + 1];
    }
  }

  lemma GatePassedFromFirst(item: Item, rest: seq<Item>, ids: seq<string>)
    requires ids != []
    ensures GatePassed([item] + rest, ids) <==> item.status == CompletedItem && GatePassed(rest, ids[1..])
  {
    var items := [item] + rest;
    assert items[0] == item && forall w :: 0 < w < |items| ==> items[w] == rest[w - 1];
    assert forall w :: 0 <= w < |rest| ==> rest[w] == items[w + 1];
  }

  /** The gate passes, every workload completed, exactly when every lane of every workload does. */
  lemma {:induction false} GatePassesIff(
    ids: seq<string>, buildMode: string, lanes: seq<string>, outcomes: seq<seq<Outcome>>)
    requires Shaped(ids, lanes, outcomes)
    ensures GatePassed(Gate(ids, buildMode, lanes, outcomes), ids) <==> AllLanesPass(outcomes)
  {
    if ids != [] {
      var item := ItemFor(ids[0], buildMode, lanes, outcomes[0]);
      ItemCompletesIff(ids[0], buildMode, lanes, outcomes[0]);
      AllLanesFromFirst(outcomes);
      if item.status == CompletedItem {
        GatePassesIff(ids[1..], buildMode, lanes, outcomes[1..]);
        GatePassedFromFirst(item, Gate(ids[1..], buildMode, lanes, outcomes[1..]), ids);
      } else {
        GatePassedFromFirst(item, [], ids);
        assert [item] + [] == [item];
      }
    }
  }

  /** The last item decides: it completed exactly if the gate passed, and otherwise it gives the reason. */
  ghost predicate EndsGate(items: seq<Item>, ids: seq<string>) {
    && items != []
    && (GatePassed(items, ids) <==> items[|items| - 1].status == CompletedItem)
    && (items[|items| - 1].status == CompletedItem <==> FailureOf(items) == None)
  }

  lemma EndsLater(item: Item, rest: seq<Item>, ids: seq<string>)
    requires ids != [] && item.status == CompletedItem && EndsGate(rest, ids[1..])
    ensures EndsGate([item] + rest, ids)
  {
    GatePassedFromFirst(item, rest, ids);
    assert ([item] + rest)[|rest|] == rest[|rest| - 1];
  }

  lemma EndsAlone(item: Item, ids: seq<string>)
    requires ids != [] && (item.status == CompletedItem ==> |ids| == 1)
    requires item.status == CompletedItem <==> item.failureReason == None
    ensures EndsGate([item], ids)
  {
  }

  lemma {:induction false} GateStopsAtFailure(
    ids: seq<string>, buildMode: string, lanes: seq<string>, outcomes: seq<seq<Outcome>>)
    requires Shaped(ids, lanes, outcomes) && ids != []
    ensures EndsGate(Gate(ids, buildMode, lanes, outcomes), ids)
  {
    var item := ItemFor(ids[0], buildMode, lanes, outcomes[0]);
    if item.status == CompletedItem && |ids| > 1 {
      GateStopsAtFailure(ids[1..], buildMode, lanes, outcomes[1..]);
      EndsLater(item, Gate(ids[1..], buildMode, lanes, outcomes[1..]), ids);
    } else {
      EndsAlone(item, ids);
      assert Gate(ids, buildMode, lanes, outcomes) == [item];
    }
  }
}
