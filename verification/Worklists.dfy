/** What one step of the invalidation worklist keeps. */
module Worklists {
  import opened Queries

  /** Nothing has been visited or queued that some closed set leaves out. */
  ghost predicate Confined<V>(
    before: map<QueryKey, CachedQuery<V>>, input: InputId, visited: set<QueryKey>, queue: seq<QueryKey>)
  {
    forall s: set<QueryKey> :: ClosedUnder(before, input, s) ==> visited <= s && forall k :: k in queue ==> k in s
  }

  /** Every remaining entry built from `input` or from a visited query is queued. */
  ghost predicate Pending<V>(
    entries: map<QueryKey, CachedQuery<V>>, input: InputId, visited: set<QueryKey>, queue: seq<QueryKey>)
  {
    && (forall k :: k in entries && Input(input) in entries[k].dependencies ==> k in queue)
    && (forall k, q :: k in entries && q in visited && Query(q) in entries[k].dependencies ==> k in queue)
  }

  /** The input index is exact for the remaining entries, `input` itself having been taken out. */
  ghost predicate InputsDuring<V>(
    entries: map<QueryKey, CachedQuery<V>>, index: map<InputId, set<QueryKey>>, input: InputId)
  {
    forall i ::
      && (i in index ==> i != input && index[i] == DependentsOf(entries, Input(i)))
      && (i !in index && i != input ==> DependentsOf(entries, Input(i)) == {})
  }

  /** The query index is exact for the remaining entries, visited queries having been taken out. */
  ghost predicate QueriesDuring<V>(
    entries: map<QueryKey, CachedQuery<V>>, index: map<QueryKey, set<QueryKey>>, visited: set<QueryKey>)
  {
    forall q ::
      && (q in index ==> q !in visited && index[q] == DependentsOf(entries, Query(q)))
      && (q !in index && q !in visited ==> DependentsOf(entries, Query(q)) == {})
  }

  /** The loop invariant: `entries` and the indexes once the keys of `visited` have been dropped. */
  ghost predicate Midway<V>(
    before: map<QueryKey, CachedQuery<V>>, input: InputId, visited: set<QueryKey>, queue: seq<QueryKey>,
    entries: map<QueryKey, CachedQuery<V>>,
    inputs: map<InputId, set<QueryKey>>, queries: map<QueryKey, set<QueryKey>>)
  {
    && entries == before - visited
    && Confined(before, input, visited, queue)
    && Pending(entries, input, visited, queue)
    && InputsDuring(entries, inputs, input)
    && QueriesDuring(entries, queries, visited)
  }

  lemma DependentsWithout<V>(entries: map<QueryKey, CachedQuery<V>>, key: QueryKey, d: QueryDependency)
    ensures DependentsOf(entries - {key}, d) == DependentsOf(entries, d) - {key}
  {
  }

  lemma UnlinkInputs<V>(
    entries: map<QueryKey, CachedQuery<V>>, index: map<InputId, set<QueryKey>>, input: InputId, key: QueryKey)
    requires key in entries && InputsDuring(entries, index, input)
    ensures InputsDuring(entries - {key}, Unlinked(index, InputsIn(entries[key].dependencies), key), input)
  {
    SourcesOfDependencies(entries[key].dependencies);
    forall i {
      DependentsWithout(entries, key, Input(i));
    }
  }

  lemma UnlinkQueries<V>(
    entries: map<QueryKey, CachedQuery<V>>, index: map<QueryKey, set<QueryKey>>, visited: set<QueryKey>, key: QueryKey)
    requires key in entries && QueriesDuring(entries, index, visited)
    ensures QueriesDuring(
      entries - {key}, Unlinked(index - {key}, QueriesIn(entries[key].dependencies), key), visited + {key})
  {
    SourcesOfDependencies(entries[key].dependencies);
    forall q {
      DependentsWithout(entries, key, Query(q));
    }
  }

  /** All entries together are closed, so nothing outside the map is ever visited or queued. */
  lemma ConfinedToEntries<V>(
    before: map<QueryKey, CachedQuery<V>>, input: InputId, visited: set<QueryKey>, queue: seq<QueryKey>)
    requires Confined(before, input, visited, queue)
    ensures visited <= before.Keys && forall k :: k in queue ==> k in before
  {
    assert ClosedUnder(before, input, before.Keys);
  }

  lemma StepStaysConfined<V>(
    before: map<QueryKey, CachedQuery<V>>, input: InputId, visited: set<QueryKey>, queue: seq<QueryKey>,
    more: seq<QueryKey>)
    requires queue != [] && Confined(before, input, visited, queue)
    requires forall k :: k in more ==> k in DependentsOf(before, Query(queue[0]))
    ensures Confined(before, input, visited + {queue[0]}, queue[1..] + more)
  {
    forall s: set<QueryKey> | ClosedUnder(before, input, s)
      ensures visited + {queue[0]} <= s && forall k :: k in queue[1..] + more ==> k in s
    {
      assert queue[0] in s;
    }
  }

  lemma StepLeavesPending<V>(
    entries: map<QueryKey, CachedQuery<V>>, input: InputId, visited: set<QueryKey>, queue: seq<QueryKey>,
    more: seq<QueryKey>)
    requires queue != [] && Pending(entries, input, visited, queue)
    requires forall k :: k in DependentsOf(entries, Query(queue[0])) ==> k in more
    ensures Pending(entries - {queue[0]}, input, visited + {queue[0]}, queue[1..] + more)
  {
    assert queue == [queue[0]] + queue[1..];
  }

  lemma RemoveOneMore<V>(before: map<QueryKey, CachedQuery<V>>, visited: set<QueryKey>, key: QueryKey)
    ensures before - visited - {key} == before - (visited + {key})
  {
  }

  lemma MidwayStart<V>(
    before: CacheState<V>, input: InputId, queue: seq<QueryKey>, inputs: map<InputId, set<QueryKey>>)
    requires IndexExact(before) && inputs == before.inputDependents - {input}
    requires forall k :: k in queue <==> k in DependentsOf(before.entries, Input(input))
    ensures Midway(before.entries, input, {}, queue, before.entries, inputs, before.queryDependents)
  {
    assert before.entries - {} == before.entries;
  }

  /** A key met again after its removal is passed over. */
  lemma MidwaySkip<V>(
    before: map<QueryKey, CachedQuery<V>>, input: InputId, visited: set<QueryKey>, queue: seq<QueryKey>,
    entries: map<QueryKey, CachedQuery<V>>,
    inputs: map<InputId, set<QueryKey>>, queries: map<QueryKey, set<QueryKey>>)
    requires queue != [] && queue[0] in visited
    requires Midway(before, input, visited, queue, entries, inputs, queries)
    ensures Midway(before, input, visited, queue[1..], entries, inputs, queries)
  {
    assert queue == [queue[0]] + queue[1..];
  }

  /** An empty queue means the visited keys are the least closed set. */
  lemma EmptyQueueMeansAffected<V>(
    before: map<QueryKey, CachedQuery<V>>, input: InputId, visited: set<QueryKey>)
    requires Confined(before, input, visited, [])
    requires Pending(before - visited, input, visited, [])
    ensures visited == Affected(before, input)
  {
    assert ClosedUnder(before, input, visited) by {
      forall k | k in before && k !in visited
        ensures k in before - visited
      {
      }
    }
    AffectedIsLeastClosed(before, input);
    ConfinedToEntries(before, input, visited, []);
    assert forall k :: k in visited ==> k in Affected(before, input);
  }

  lemma SweepRestoresInputs<V>(
    entries: map<QueryKey, CachedQuery<V>>, index: map<InputId, set<QueryKey>>, input: InputId, visited: set<QueryKey>)
    requires InputsDuring(entries, index, input) && Pending(entries, input, visited, [])
    ensures InputIndexExact(entries, Nonempty(index))
  {
    assert DependentsOf(entries, Input(input)) == {};
  }

  lemma SweepRestoresQueries<V>(
    entries: map<QueryKey, CachedQuery<V>>, index: map<QueryKey, set<QueryKey>>, input: InputId, visited: set<QueryKey>)
    requires QueriesDuring(entries, index, visited) && Pending(entries, input, visited, [])
    ensures QueryIndexExact(entries, Nonempty(index))
  {
    forall q | q in visited
      ensures DependentsOf(entries, Query(q)) == {}
    {
    }
  }

  /** What is left once the queue has run dry and the emptied rows have been swept out. */
  lemma SweepIsInvalidated<V>(
    before: CacheState<V>, input: InputId, visited: set<QueryKey>, entries: map<QueryKey, CachedQuery<V>>,
    inputs: map<InputId, set<QueryKey>>, queries: map<QueryKey, set<QueryKey>>)
    requires IndexExact(before)
    requires Midway(before.entries, input, visited, [], entries, inputs, queries)
    ensures visited == Affected(before.entries, input)
    ensures Nonempty(inputs) == Invalidated(before, input).inputDependents
    ensures Nonempty(queries) == Invalidated(before, input).queryDependents
  {
    EmptyQueueMeansAffected(before.entries, input, visited);
    SweepRestoresInputs(entries, inputs, input, visited);
    SweepRestoresQueries(entries, queries, input, visited);
    InvalidateKeepsIndexExact(before, input);
    ExactIndexesAreUnique(
      before.(entries := entries, inputDependents := Nonempty(inputs), queryDependents := Nonempty(queries)),
      Invalidated(before, input));
  }

  /** Registering or dropping the inputs and queries of one more dependency. */
  lemma SourcesGrow(done: set<QueryDependency>, d: QueryDependency)
    ensures InputsIn(done + {d}) == if d.Input? then InputsIn(done) + {d.input} else InputsIn(done)
    ensures QueriesIn(done + {d}) == if d.Query? then QueriesIn(done) + {d.query} else QueriesIn(done)
  {
    SourcesOfDependencies(done);
    SourcesOfDependencies(done + {d});
  }

  lemma LinkNone<K>(index: map<K, set<QueryKey>>, key: QueryKey)
    ensures Linked(index, {}, key) == index
  {
    forall j | j in index
      ensures Linked(index, {}, key)[j] == index[j]
    {
    }
  }

  lemma LinkOneMore<K>(index: map<K, set<QueryKey>>, sources: set<K>, key: QueryKey, i: K)
    ensures var now := Linked(index, sources, key);
      Linked(index, sources + {i}, key) == now[i := (if i in now then now[i] else {}) + {key}]
  {
    var now := Linked(index, sources, key);
    var next := Linked(index, sources + {i}, key);
    var updated := now[i := (if i in now then now[i] else {}) + {key}];
    assert next.Keys == updated.Keys;
    forall j | j in next
      ensures next[j] == updated[j]
    {
    }
  }

  lemma UnlinkOneMore<K>(index: map<K, set<QueryKey>>, sources: set<K>, key: QueryKey, i: K)
    ensures var now := Unlinked(index, sources, key);
      Unlinked(index, sources + {i}, key) == if i in now then now[i := now[i] - {key}] else now
  {
    var now := Unlinked(index, sources, key);
    var next := Unlinked(index, sources + {i}, key);
    var updated := if i in now then now[i := now[i] - {key}] else now;
    assert next.Keys == updated.Keys;
    forall j | j in next
      ensures next[j] == updated[j]
    {
    }
  }
}
