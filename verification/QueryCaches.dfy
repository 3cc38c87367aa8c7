/** The shared query cache. Every public method but `GetOrCompute` is one critical section of its lock. */
module QueryCaches {
  import opened Wrappers
  import opened Queries
  import opened Worklists

  /** The elements of a set as a list; the order stands for the sorted order of the original's sets. */
  method InOrder<T(==)>(s: set<T>) returns (r: seq<T>)
    ensures forall k :: k in r <==> k in s
  {
    r := [];
    var todo := s;
    while todo != {}
      invariant todo <= s
      invariant forall k :: k in r <==> k in s - todo
      decreases |todo|
    {
      var k :| k in todo;
      r := r + [k];
      todo := todo - {k};
    }
  }

  class QueryCache<V> {
    var entries: map<QueryKey, CachedQuery<V>>
    var inputDependents: map<InputId, set<QueryKey>>
    var queryDependents: map<QueryKey, set<QueryKey>>
    var hits: nat
    var misses: nat
    var insertions: nat
    var invalidations: nat
    var generation: nat

    ghost function State(): CacheState<V>
      reads this
    {
      CacheState(entries, inputDependents, queryDependents, hits, misses, insertions, invalidations, generation)
    }

    ghost predicate Valid()
      reads this
    {
      IndexExact(State())
    }

    constructor ()
      ensures Valid() && State() == EmptyCache()
    {
      entries, inputDependents, queryDependents := map[], map[], map[];
      hits, misses, insertions, invalidations, generation := 0, 0, 0, 0, 0;
    }

    method Get(key: QueryKey) returns (answer: Option<V>)
      requires Valid()
      modifies this
      ensures Valid() && State() == Looked(old(State()), key)
      ensures answer == if key in old(entries) then Some(old(entries)[key].value) else None
    {
      if key in entries {
        hits := hits + 1;
        answer := Some(entries[key].value);
      } else {
        misses := misses + 1;
        answer := None;
      }
    }

    /** The second critical section of `GetOrCompute`: the first commit of a key wins. */
    method Commit(key: QueryKey, dependencies: set<QueryDependency>, computed: V) returns (answer: V)
      requires Valid()
      modifies this
      ensures Valid() && State() == Committed(old(State()), key, dependencies, computed)
      ensures key in entries && answer == entries[key].value
    {
      CommitKeepsIndexExact(State(), key, dependencies, computed);
      if key in entries {
        hits := hits + 1;
        return entries[key].value;
      }
      Link(key, dependencies);
      entries := entries[key := CachedQuery(computed, dependencies)];
      insertions := insertions + 1;
      generation := generation + 1;
      answer := computed;
    }

    method Link(key: QueryKey, dependencies: set<QueryDependency>)
      modifies this`inputDependents, this`queryDependents
      ensures inputDependents == Linked(old(inputDependents), InputsIn(dependencies), key)
      ensures queryDependents == Linked(old(queryDependents), QueriesIn(dependencies), key)
    {
      var todo := dependencies;
      ghost var done: set<QueryDependency> := {};
      assert InputsIn(done) == {} && QueriesIn(done) == {};
      LinkNone(inputDependents, key);
      LinkNone(queryDependents, key);
      while todo != {}
        invariant done + todo == dependencies
        invariant inputDependents == Linked(old(inputDependents), InputsIn(done), key)
        invariant queryDependents == Linked(old(queryDependents), QueriesIn(done), key)
        decreases |todo|
      {
        var dependency :| dependency in todo;
        LinkOne(key, dependency, old(inputDependents), old(queryDependents), done);
        todo, done := todo - {dependency}, done + {dependency};
      }
      assert done == dependencies;
    }

    method LinkOne(
      key: QueryKey, dependency: QueryDependency, ghost inputs: map<InputId, set<QueryKey>>,
      ghost queries: map<QueryKey, set<QueryKey>>, ghost done: set<QueryDependency>)
      requires inputDependents == Linked(inputs, InputsIn(done), key)
      requires queryDependents == Linked(queries, QueriesIn(done), key)
      modifies this`inputDependents, this`queryDependents
      ensures inputDependents == Linked(inputs, InputsIn(done + {dependency}), key)
      ensures queryDependents == Linked(queries, QueriesIn(done + {dependency}), key)
    {
      SourcesGrow(done, dependency);
      match dependency
      case Input(input) =>
        LinkOneMore(inputs, InputsIn(done), key, input);
        var known := if input in inputDependents then inputDependents[input] else {};
        inputDependents := inputDependents[input := known + {key}];
      case Query(query) =>
        LinkOneMore(queries, QueriesIn(done), key, query);
        var known := if query in queryDependents then queryDependents[query] else {};
        queryDependents := queryDependents[query := known + {key}];
    }

    method Unlink(key: QueryKey, dependencies: set<QueryDependency>)
      modifies this`inputDependents, this`queryDependents
      ensures inputDependents == Unlinked(old(inputDependents), InputsIn(dependencies), key)
      ensures queryDependents == Unlinked(old(queryDependents), QueriesIn(dependencies), key)
    {
      var todo := dependencies;
      ghost var done: set<QueryDependency> := {};
      while todo != {}
        invariant done + todo == dependencies
        invariant inputDependents == Unlinked(old(inputDependents), InputsIn(done), key)
        invariant queryDependents == Unlinked(old(queryDependents), QueriesIn(done), key)
        decreases |todo|
      {
        var dependency :| dependency in todo;
        SourcesGrow(done, dependency);
        match dependency {
          case Input(input) =>
            UnlinkOneMore(old(inputDependents), InputsIn(done), key, input);
            if input in inputDependents {
              inputDependents := inputDependents[input := inputDependents[input] - {key}];
            }
          case Query(query) =>
            UnlinkOneMore(old(queryDependents), QueriesIn(done), key, query);
            if query in queryDependents {
              queryDependents := queryDependents[query := queryDependents[query] - {key}];
            }
        }
        todo, done := todo - {dependency}, done + {dependency};
      }
      assert done == dependencies;
    }

    /** A caller that runs alone gets the cached value or, after a miss, the fresh one. */
    method GetOrCompute(key: QueryKey, dependencies: set<QueryDependency>, compute: () -> V) returns (answer: V)
      requires Valid()
      modifies this
      ensures Valid() && key in entries && answer == entries[key].value
      ensures key in old(entries) ==> State() == Looked(old(State()), key)
      ensures key !in old(entries) ==>
        && answer == compute()
        && State() == Committed(Looked(old(State()), key), key, dependencies, compute())
    {
      var cached := Get(key);
      if cached.Some? {
        return cached.value;
      }
      var computed := compute();
      answer := Commit(key, dependencies, computed);
    }

    method InvalidateInput(input: InputId) returns (removed: nat)
      requires Valid()
      modifies this
      ensures Valid() && State() == Invalidated(old(State()), input)
      ensures removed == |Affected(old(entries), input)|
    {
      InvalidateKeepsIndexExact(State(), input);
      ghost var before := State();
      var roots := if input in inputDependents then inputDependents[input] else {};
      inputDependents := inputDependents - {input};
      removed := InvalidateQueries(roots, input, before);
    }

    /** One turn of the worklist: drop `key` and its index rows, and hand back what was built from it. */
    method Evict(key: QueryKey, ghost input: InputId, ghost visited: set<QueryKey>)
      returns (dependents: set<QueryKey>)
      requires key in entries && key !in visited
      requires InputsDuring(entries, inputDependents, input)
      requires QueriesDuring(entries, queryDependents, visited)
      modifies this`entries, this`inputDependents, this`queryDependents
      ensures dependents == DependentsOf(old(entries), Query(key))
      ensures entries == old(entries) - {key}
      ensures InputsDuring(entries, inputDependents, input)
      ensures QueriesDuring(entries, queryDependents, visited + {key})
    {
      UnlinkInputs(entries, inputDependents, input, key);
      UnlinkQueries(entries, queryDependents, visited, key);
      dependents := if key in queryDependents then queryDependents[key] else {};
      queryDependents := queryDependents - {key};
      var entry := entries[key];
      entries := entries - {key};
      Unlink(key, entry.dependencies);
    }

    /** The turn of an unvisited key: it is dropped and what was built from it joins the queue. */
    method Visit(
      key: QueryKey, queue: seq<QueryKey>, ghost visited: set<QueryKey>, ghost input: InputId,
      ghost before: map<QueryKey, CachedQuery<V>>)
      returns (queue': seq<QueryKey>)
      requires queue != [] && key == queue[0] && key !in visited
      requires Midway(before, input, visited, queue, entries, inputDependents, queryDependents)
      modifies this`entries, this`inputDependents, this`queryDependents
      ensures Midway(before, input, visited + {key}, queue', entries, inputDependents, queryDependents)
      ensures |entries| < |old(entries)| && |visited + {key}| == |visited| + 1
    {
      // The key is always cached: the worklist never pops an unvisited key it cannot find.
      ConfinedToEntries(before, input, visited, queue);
      ghost var remaining := entries;
      var dependents := Evict(key, input, visited);
      var more := InOrder(dependents);
      queue' := queue[1..] + more;
      StepStaysConfined(before, input, visited, queue, more);
      StepLeavesPending(remaining, input, visited, queue, more);
      RemoveOneMore(before, visited, key);
    }

    /** The worklist. `input` has just left the input index and `roots` were its dependents. */
    method Drain(roots: set<QueryKey>, ghost input: InputId, ghost before: CacheState<V>) returns (removed: nat)
      requires IndexExact(before) && entries == before.entries
      requires inputDependents == before.inputDependents - {input} && queryDependents == before.queryDependents
      requires roots == DependentsOf(before.entries, Input(input))
      modifies this`entries, this`inputDependents, this`queryDependents
      ensures removed == |Affected(before.entries, input)|
      ensures entries == Invalidated(before, input).entries
      ensures Nonempty(inputDependents) == Invalidated(before, input).inputDependents
      ensures Nonempty(queryDependents) == Invalidated(before, input).queryDependents
    {
      var queue := InOrder(roots);
      var visited := {};
      removed := 0;
      MidwayStart(before, input, queue, inputDependents);
      while queue != []
        invariant removed == |visited|
        invariant Midway(before.entries, input, visited, queue, entries, inputDependents, queryDependents)
        decreases |entries|, |queue|
      {
        var key := queue[0];
        if key in visited {
          MidwaySkip(before.entries, input, visited, queue, entries, inputDependents, queryDependents);
          queue := queue[1..];
        } else {
          queue := Visit(key, queue, visited, input, before.entries);
          visited := visited + {key};
          removed := removed + 1;
        }
      }
      SweepIsInvalidated(before, input, visited, entries, inputDependents, queryDependents);
    }

    /** The worklist, then the sweep of emptied index rows and the counters. */
    method InvalidateQueries(roots: set<QueryKey>, ghost input: InputId, ghost before: CacheState<V>)
      returns (removed: nat)
      requires IndexExact(before)
      requires State() == before.(inputDependents := before.inputDependents - {input})
      requires roots == DependentsOf(before.entries, Input(input))
      modifies this
      ensures State() == Invalidated(before, input)
      ensures removed == |Affected(before.entries, input)|
    {
      removed := Drain(roots, input, before);
      inputDependents := Nonempty(inputDependents);
      queryDependents := Nonempty(queryDependents);
      invalidations := invalidations + removed;
      if removed > 0 {
        generation := generation + 1;
      }
    }

    method Clear() returns (removed: nat)
      requires Valid()
      modifies this
      ensures Valid() && State() == Cleared(old(State()))
      ensures removed == |old(entries)|
    {
      removed := |entries|;
      entries, inputDependents, queryDependents := map[], map[], map[];
      invalidations := invalidations + removed;
      if removed > 0 {
        generation := generation + 1;
      }
    }

    method Snapshot() returns (at: nat, keys: set<QueryKey>)
      ensures at == generation && keys == entries.Keys
    {
      at, keys := generation, entries.Keys;
    }
  }
}
