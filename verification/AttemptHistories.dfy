/** The loop over attempts, and what a history of attempts makes of it. */
module AttemptHistories {
  import opened BatchProtocol

  // ----- The loop over attempts -----

  lemma CountsOfFirst(batch: Batch, rest: seq<Batch>)
    ensures forall status: BatchStatus ::
      CountStatus([batch] + rest, status) == (if batch.status == status then 1 else 0) + CountStatus(rest, status)
  {
    assert ([batch] + rest)[1..] == rest;
  }

  ghost predicate Decisive(run: Run) {
    forall b: int, a: int :: run(b, a).status != RunningBatch
  }

  /** The loop without its cap on attempts. */
  function Uncapped(limit: nat, run: Run, accepted: nat, attemptIndex: nat, reruns: nat): seq<Batch>
    requires accepted <= 2 && reruns <= limit
    decreases 2 - accepted + (limit - reruns)
  {
    if accepted == 2 then []
    else
      var batch := run(accepted + 1, attemptIndex + 1);
      if batch.status == CompletedBatch then [batch] + Uncapped(limit, run, accepted + 1, attemptIndex + 1, reruns)
      else if reruns == limit then [batch]
      else [batch] + Uncapped(limit, run, accepted, attemptIndex + 1, reruns + 1)
  }

  /** The cap on attempts never decides when the loop ends. */
  lemma {:induction false} CapNeverDecides(limit: nat, run: Run, accepted: nat, attemptIndex: nat, reruns: nat)
    requires attemptIndex == accepted + reruns && accepted <= 2 && reruns <= limit
    ensures Collect(limit, run, accepted, attemptIndex, reruns) == Uncapped(limit, run, accepted, attemptIndex, reruns)
    decreases 2 - accepted + (limit - reruns)
  {
    if accepted < 2 {
      var batch := run(accepted + 1, attemptIndex + 1);
      if batch.status == CompletedBatch {
        CapNeverDecides(limit, run, accepted + 1, attemptIndex + 1, reruns);
      } else if reruns < limit {
        CapNeverDecides(limit, run, accepted, attemptIndex + 1, reruns + 1);
      }
    }
  }

  /** Where the loop stands, or ends, with `completed` and `invalidated` batches in all. */
  ghost predicate EndsAs(batches: seq<Batch>, accepted: nat, reruns: nat, limit: nat) {
    var completed, invalidated :=
      accepted + CountStatus(batches, CompletedBatch), reruns + CountStatus(batches, InvalidatedBatch);
    && |batches| == completed + invalidated - (accepted + reruns)
    && ((completed == 2 && invalidated <= limit) || (completed < 2 && invalidated == limit + 1))
  }

  lemma OneMoreEnds(batch: Batch, rest: seq<Batch>, accepted: nat, reruns: nat, limit: nat)
    requires batch.status == CompletedBatch ==> EndsAs(rest, accepted + 1, reruns, limit)
    requires batch.status == InvalidatedBatch ==> EndsAs(rest, accepted, reruns + 1, limit)
    requires batch.status != RunningBatch
    ensures EndsAs([batch] + rest, accepted, reruns, limit)
  {
    CountsOfFirst(batch, rest);
  }

  /** Whatever attempts do, and for any rerun limit, the loop ends with two completed batches, or with one more
      invalidated batch than the limit. */
  lemma {:induction false} CollectEnds(limit: nat, run: Run, accepted: nat, attemptIndex: nat, reruns: nat)
    requires Decisive(run)
    requires attemptIndex == accepted + reruns && accepted <= 2 && reruns <= limit
    ensures EndsAs(Collect(limit, run, accepted, attemptIndex, reruns), accepted, reruns, limit)
    decreases 2 + limit - attemptIndex
  {
    if accepted < 2 {
      var batch := run(accepted + 1, attemptIndex + 1);
      if batch.status == CompletedBatch {
        CollectEnds(limit, run, accepted + 1, attemptIndex + 1, reruns);
        OneMoreEnds(batch, Collect(limit, run, accepted + 1, attemptIndex + 1, reruns), accepted, reruns, limit);
      } else if reruns < limit {
        CollectEnds(limit, run, accepted, attemptIndex + 1, reruns + 1);
        OneMoreEnds(batch, Collect(limit, run, accepted, attemptIndex + 1, reruns + 1), accepted, reruns, limit);
      } else {
        OneMoreEnds(batch, [], accepted, reruns, limit);
        assert [batch] + [] == [batch];
      }
    }
  }

  lemma CountUpTo(batch: Batch, rest: seq<Batch>, batches: seq<Batch>, b: nat)
    requires 0 < b < |batches| && batches == [batch] + rest
    ensures batches[b] == rest[b - 1]
    ensures CountStatus(batches[..b], CompletedBatch)
      == (if batch.status == CompletedBatch then 1 else 0) + CountStatus(rest[..b - 1], CompletedBatch)
  {
    assert batches[..b] == [batch] + rest[..b - 1];
    CountsOfFirst(batch, rest[..b - 1]);
  }

  /** Each batch is that of the next attempt, under the number after those completed before it; the loop goes on
      only below two completed ones. */
  lemma {:induction false} CollectAt(
    limit: nat, run: Run, accepted: nat, attemptIndex: nat, reruns: nat, b: nat)
    requires b < |Collect(limit, run, accepted, attemptIndex, reruns)|
    ensures var batches := Collect(limit, run, accepted, attemptIndex, reruns);
      var completed := accepted + CountStatus(batches[..b], CompletedBatch);
      && attemptIndex + b < 2 + limit
      && completed < 2
      && batches[b] == run(completed + 1, attemptIndex + b + 1)
    decreases 2 + limit - attemptIndex
  {
    if b > 0 {
      var batch := run(accepted + 1, attemptIndex + 1);
      var accepted' := if batch.status == CompletedBatch then accepted + 1 else accepted;
      var reruns' := if batch.status == CompletedBatch then reruns else reruns + 1;
      var rest := Collect(limit, run, accepted', attemptIndex + 1, reruns');
      CollectAt(limit, run, accepted', attemptIndex + 1, reruns', b - 1);
      CountUpTo(batch, rest, Collect(limit, run, accepted, attemptIndex, reruns), b);
    }
  }

  // ----- Histories -----

  /** Attempt `at` is the first from `from` on that completes, and it does so as batch `batchIndex`. Attempts count
      from 1. */
  ghost predicate FirstSuccess(limit: nat, run: Run, batchIndex: int, from: int, at: int) {
    && from <= at <= 2 + limit
    && run(batchIndex, at).status == CompletedBatch
    && forall a :: from <= a < at ==> run(batchIndex, a).status != CompletedBatch
  }

  /** The two batches of the run complete in attempts `i` and `j`. */
  ghost predicate CompleteAt(limit: nat, run: Run, i: int, j: int) {
    FirstSuccess(limit, run, 1, 1, i) && FirstSuccess(limit, run, 2, i + 1, j)
  }

  /** From here on, attempt `j` completes the second batch. */
  lemma {:induction false} SecondAt(limit: nat, run: Run, attemptIndex: nat, reruns: nat, j: int)
    requires attemptIndex == 1 + reruns && reruns <= limit
    requires FirstSuccess(limit, run, 2, attemptIndex + 1, j)
    ensures var batches := Collect(limit, run, 1, attemptIndex, reruns);
      |batches| == j - attemptIndex && CountStatus(batches, CompletedBatch) == 1
    decreases 2 + limit - attemptIndex
  {
    var batch := run(2, attemptIndex + 1);
    if j == attemptIndex + 1 {
      CountsOfFirst(batch, []);
      assert Collect(limit, run, 2, attemptIndex + 1, reruns) == [];
    } else {
      SecondAt(limit, run, attemptIndex + 1, reruns + 1, j);
      CountsOfFirst(batch, Collect(limit, run, 1, attemptIndex + 1, reruns + 1));
    }
  }

  lemma {:induction false} NoSecond(limit: nat, run: Run, attemptIndex: nat, reruns: nat)
    requires attemptIndex == 1 + reruns && reruns <= limit
    requires forall a :: attemptIndex < a <= 2 + limit ==> run(2, a).status != CompletedBatch
    ensures var batches := Collect(limit, run, 1, attemptIndex, reruns);
      |batches| == 2 + limit - attemptIndex && CountStatus(batches, CompletedBatch) == 0
    decreases 2 + limit - attemptIndex
  {
    var batch := run(2, attemptIndex + 1);
    if reruns >= limit {
      CountsOfFirst(batch, []);
      assert [batch] + [] == [batch];
    } else {
      NoSecond(limit, run, attemptIndex + 1, reruns + 1);
      CountsOfFirst(batch, Collect(limit, run, 1, attemptIndex + 1, reruns + 1));
    }
  }

  /** From here on, attempt `i` completes the first batch. */
  lemma {:induction false} FirstAt(limit: nat, run: Run, attemptIndex: nat, i: int)
    requires attemptIndex <= limit && i <= 1 + limit && FirstSuccess(limit, run, 1, attemptIndex + 1, i)
    ensures var batches, rest := Collect(limit, run, 0, attemptIndex, attemptIndex), Collect(limit, run, 1, i, i - 1);
      && |batches| == i - attemptIndex + |rest|
      && CountStatus(batches, CompletedBatch) == 1 + CountStatus(rest, CompletedBatch)
    decreases 2 + limit - attemptIndex
  {
    var batch := run(1, attemptIndex + 1);
    if i == attemptIndex + 1 {
      CountsOfFirst(batch, Collect(limit, run, 1, i, i - 1));
    } else {
      FirstAt(limit, run, attemptIndex + 1, i);
      CountsOfFirst(batch, Collect(limit, run, 0, attemptIndex + 1, attemptIndex + 1));
    }
  }

  lemma {:induction false} NoFirst(limit: nat, run: Run, attemptIndex: nat)
    requires attemptIndex <= limit
    requires forall a :: attemptIndex < a <= 1 + limit ==> run(1, a).status != CompletedBatch
    ensures var batches := Collect(limit, run, 0, attemptIndex, attemptIndex);
      |batches| == 1 + limit - attemptIndex && CountStatus(batches, CompletedBatch) == 0
    decreases 2 + limit - attemptIndex
  {
    var batch := run(1, attemptIndex + 1);
    if attemptIndex >= limit {
      CountsOfFirst(batch, []);
      assert [batch] + [] == [batch];
    } else {
      NoFirst(limit, run, attemptIndex + 1);
      CountsOfFirst(batch, Collect(limit, run, 0, attemptIndex + 1, attemptIndex + 1));
    }
  }

  /** If attempts `i` and `j` complete the two batches, these are the attempts up to `j`. */
  lemma CompletedHistory(limit: nat, run: Run, i: int, j: int)
    requires CompleteAt(limit, run, i, j)
    ensures var batches := Collect(limit, run, 0, 0, 0);
      |batches| == j && CountStatus(batches, CompletedBatch) == 2
  {
    FirstAt(limit, run, 0, i);
    SecondAt(limit, run, i, i - 1, j);
  }

  /** Some attempt completes the first batch in time for another to follow it. */
  ghost predicate OnceComplete(limit: nat, run: Run) {
    exists i :: 1 <= i <= 1 + limit && run(1, i).status == CompletedBatch
  }

  lemma {:induction false} EarliestSuccess(limit: nat, run: Run, batchIndex: int, from: int, at: int) returns (i: int)
    requires from <= at <= 2 + limit && run(batchIndex, at).status == CompletedBatch
    ensures i <= at && FirstSuccess(limit, run, batchIndex, from, i)
    decreases at - from
  {
    if run(batchIndex, from).status == CompletedBatch {
      i := from;
    } else {
      i := EarliestSuccess(limit, run, batchIndex, from + 1, at);
    }
  }

  lemma BothComplete(limit: nat, run: Run, i: int, a: int)
    requires FirstSuccess(limit, run, 1, 1, i)
    requires i < a <= 2 + limit && run(2, a).status == CompletedBatch
    ensures exists j :: CompleteAt(limit, run, i, j)
  {
    var j := EarliestSuccess(limit, run, 2, i + 1, a);
    assert CompleteAt(limit, run, i, j);
  }

  /** Otherwise the rerun limit is exhausted: one batch more than it is invalidated, and at most one completes. */
  lemma ExhaustedHistory(limit: nat, run: Run)
    requires forall i, j :: !CompleteAt(limit, run, i, j)
    ensures var batches := Collect(limit, run, 0, 0, 0);
      && |batches| == (if OnceComplete(limit, run) then 2 + limit else 1 + limit)
      && CountStatus(batches, CompletedBatch) == (if OnceComplete(limit, run) then 1 else 0)
  {
    if OnceComplete(limit, run) {
      var at :| 1 <= at <= 1 + limit && run(1, at).status == CompletedBatch;
      var i := EarliestSuccess(limit, run, 1, 1, at);
      forall a | i < a <= 2 + limit
        ensures run(2, a).status != CompletedBatch
      {
        if run(2, a).status == CompletedBatch {
          BothComplete(limit, run, i, a);
        }
      }
      FirstAt(limit, run, 0, i);
      NoSecond(limit, run, i, i - 1);
    } else {
      NoFirst(limit, run, 0);
    }
  }
}
