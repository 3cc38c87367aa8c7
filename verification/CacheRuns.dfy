/** Interleavings of callers of the query cache. `get_or_compute` holds the lock twice and computes
    in between, so it is two steps with anything at all allowed between them. */
module CacheRuns {
  import opened Wrappers
  import opened Queries

  type Caller = nat

  /** A caller in `pending` has missed on its key and is computing outside the lock. */
  datatype System<V> = System(cache: CacheState<V>, pending: map<Caller, QueryKey>)

  datatype Step<V> =
    | Get(key: QueryKey)
    | Begin(caller: Caller, key: QueryKey)
    | Finish(caller: Caller, dependencies: set<QueryDependency>, computed: V)
    | Invalidate(input: InputId)
    | Clear

  ghost predicate Enabled<V>(sys: System<V>, step: Step<V>) {
    match step
    case Begin(caller, _) => caller !in sys.pending
    case Finish(caller, _, _) => caller in sys.pending
    case _ => true
  }

  ghost function Next<V>(sys: System<V>, step: Step<V>): System<V>
    requires Enabled(sys, step)
  {
    match step
    case Get(key) => sys.(cache := Looked(sys.cache, key))
    case Begin(caller, key) =>
      System(Looked(sys.cache, key),
             if key in sys.cache.entries then sys.pending else sys.pending[caller := key])
    case Finish(caller, dependencies, computed) =>
      System(Committed(sys.cache, sys.pending[caller], dependencies, computed), sys.pending - {caller})
    case Invalidate(input) => sys.(cache := Invalidated(sys.cache, input))
    case Clear => sys.(cache := Cleared(sys.cache))
  }

  /** The key and value a caller walks away with at this step, if one does. */
  ghost function Answer<V>(sys: System<V>, step: Step<V>): Option<(QueryKey, V)>
    requires Enabled(sys, step)
  {
    match step
    case Get(key) => if key in sys.cache.entries then Some((key, sys.cache.entries[key].value)) else None
    case Begin(_, key) => if key in sys.cache.entries then Some((key, sys.cache.entries[key].value)) else None
    case Finish(caller, _, computed) =>
      var key := sys.pending[caller];
      Some((key, if key in sys.cache.entries then sys.cache.entries[key].value else computed))
    case _ => None
  }

  /** `states[n]` is the system after the first `n` steps. */
  ghost predicate Run<V>(states: seq<System<V>>, steps: seq<Step<V>>) {
    && |states| == |steps| + 1
    && states[0] == System(EmptyCache(), map[])
    && forall n {:trigger steps[n]} :: 0 <= n < |steps| ==>
      Enabled(states[n], steps[n]) && states[n + 1] == Next(states[n], steps[n])
  }

  // ----- What every reachable state satisfies -----

  ghost predicate CountersAgree<V>(sys: System<V>) {
    && |sys.cache.entries| + sys.cache.invalidations == sys.cache.insertions
    && sys.cache.insertions + |sys.pending| <= sys.cache.misses
  }

  ghost predicate Invariant<V>(sys: System<V>) {
    IndexExact(sys.cache) && CountersAgree(sys)
  }

  lemma RemovalSize<K, T>(m: map<K, T>, gone: set<K>)
    requires gone <= m.Keys
    ensures |m - gone| == |m| - |gone|
  {
    assert (m - gone).Keys == m.Keys - gone;
    assert |m| == |m.Keys| && |m - gone| == |(m - gone).Keys|;
  }

  lemma StepKeepsIndexes<V>(sys: System<V>, step: Step<V>)
    requires IndexExact(sys.cache) && Enabled(sys, step)
    ensures IndexExact(Next(sys, step).cache)
  {
    match step
    case Finish(caller, dependencies, computed) =>
      CommitKeepsIndexExact(sys.cache, sys.pending[caller], dependencies, computed);
    case Invalidate(input) =>
      InvalidateKeepsIndexExact(sys.cache, input);
    case _ =>
  }

  lemma StepKeepsCounters<V>(sys: System<V>, step: Step<V>)
    requires CountersAgree(sys) && Enabled(sys, step)
    ensures CountersAgree(Next(sys, step))
  {
    match step
    case Begin(caller, key) =>
      if key !in sys.cache.entries {
        assert sys.pending[caller := key].Keys == sys.pending.Keys + {caller};
      }
    case Finish(caller, dependencies, computed) =>
      RemovalSize(sys.pending, {caller});
      var key := sys.pending[caller];
      if key !in sys.cache.entries {
        assert sys.cache.entries[key := CachedQuery(computed, dependencies)].Keys == sys.cache.entries.Keys + {key};
      }
    case Invalidate(input) =>
      RemovalSize(sys.cache.entries, Affected(sys.cache.entries, input));
    case _ =>
  }

  /** Exact indexes and balanced counters at every release of the lock, whatever the interleaving. */
  lemma {:induction false} InvariantHolds<V>(states: seq<System<V>>, steps: seq<Step<V>>, n: nat)
    requires Run(states, steps) && n < |states|
    ensures Invariant(states[n])
  {
    if n > 0 {
      InvariantHolds(states, steps, n - 1);
      StepKeepsIndexes(states[n - 1], steps[n - 1]);
      StepKeepsCounters(states[n - 1], steps[n - 1]);
    }
  }

  // ----- Snapshots -----

  /** The step changes what is cached. */
  ghost predicate Changes<V>(sys: System<V>, step: Step<V>) {
    Enabled(sys, step) && Next(sys, step).cache.entries != sys.cache.entries
  }

  /** A step moves the generation, by one, if and only if it changes what is cached. */
  lemma StepMovesGeneration<V>(sys: System<V>, step: Step<V>)
    requires Enabled(sys, step)
    ensures Next(sys, step).cache.generation == sys.cache.generation + if Changes(sys, step) then 1 else 0
  {
    match step
    case Invalidate(input) =>
      var removed := Affected(sys.cache.entries, input);
      if removed == {} {
        assert sys.cache.entries - {} == sys.cache.entries;
      } else {
        var key :| key in removed;
        assert key in sys.cache.entries && key !in sys.cache.entries - removed;
      }
    case _ =>
  }

  /** A lookup or a commit that finds its key cached. */
  ghost predicate Finds<V>(sys: System<V>, step: Step<V>) {
    match step
    case Get(key) => key in sys.cache.entries
    case Begin(_, key) => key in sys.cache.entries
    case Finish(caller, _, _) => caller in sys.pending && sys.pending[caller] in sys.cache.entries
    case _ => false
  }

  /** A lookup that does not. */
  ghost predicate LooksInVain<V>(sys: System<V>, step: Step<V>) {
    (step.Get? || step.Begin?) && step.key !in sys.cache.entries
  }

  /** A commit that does not. */
  ghost predicate Inserts<V>(sys: System<V>, step: Step<V>) {
    step.Finish? && step.caller in sys.pending && sys.pending[step.caller] !in sys.cache.entries
  }

  /** How many of the first `n` steps are of one kind. */
  ghost function Tally<V>(
    states: seq<System<V>>, steps: seq<Step<V>>, n: nat, kind: (System<V>, Step<V>) -> bool): nat
    requires Run(states, steps) && n <= |steps|
  {
    if n == 0 then 0
    else Tally(states, steps, n - 1, kind) + if kind(states[n - 1], steps[n - 1]) then 1 else 0
  }

  lemma StepIsTallied<V>(sys: System<V>, step: Step<V>)
    requires Enabled(sys, step)
    ensures var before, after := sys.cache, Next(sys, step).cache;
      && after.hits == before.hits + (if Finds(sys, step) then 1 else 0)
      && after.misses == before.misses + (if LooksInVain(sys, step) then 1 else 0)
      && after.insertions == before.insertions + (if Inserts(sys, step) then 1 else 0)
  {
  }

  /** In every interleaving hits are the lookups and commits that found their key, misses the lookups that did not,
      insertions the commits that did not, and the generation is the number of steps that changed what is cached. */
  lemma {:induction false} RunIsTallied<V>(states: seq<System<V>>, steps: seq<Step<V>>, n: nat)
    requires Run(states, steps) && n <= |steps|
    ensures var cache := states[n].cache;
      && cache.hits == Tally(states, steps, n, (sys, step) => Finds(sys, step))
      && cache.misses == Tally(states, steps, n, (sys, step) => LooksInVain(sys, step))
      && cache.insertions == Tally(states, steps, n, (sys, step) => Inserts(sys, step))
      && cache.generation == Tally(states, steps, n, (sys, step) => Changes(sys, step))
  {
    if n > 0 {
      RunIsTallied(states, steps, n - 1);
      StepIsTallied(states[n - 1], steps[n - 1]);
      StepMovesGeneration(states[n - 1], steps[n - 1]);
    }
  }

  /** Two snapshots of one generation list the same keys: nothing was inserted or removed between them. */
  lemma {:induction false} EqualGenerationsShareEntries<V>(states: seq<System<V>>, steps: seq<Step<V>>, i: nat, j: nat)
    requires Run(states, steps) && i <= j < |states|
    ensures states[i].cache.generation <= states[j].cache.generation
    ensures states[i].cache.generation == states[j].cache.generation ==>
      states[i].cache.entries == states[j].cache.entries
  {
    if i < j {
      EqualGenerationsShareEntries(states, steps, i, j - 1);
      StepMovesGeneration(states[j - 1], steps[j - 1]);
      assert states[j] == Next(states[j - 1], steps[j - 1]);
    }
  }

  // ----- Agreement of callers -----

  lemma StepNeverRewrites<V>(sys: System<V>, step: Step<V>, key: QueryKey)
    requires Enabled(sys, step)
    requires key in sys.cache.entries && key in Next(sys, step).cache.entries
    ensures Next(sys, step).cache.entries[key] == sys.cache.entries[key]
  {
  }

  lemma {:induction false} LivingEntryIsConstant<V>(
    states: seq<System<V>>, steps: seq<Step<V>>, key: QueryKey, i: nat, j: nat)
    requires Run(states, steps) && i <= j < |states|
    requires forall n :: i <= n <= j ==> key in states[n].cache.entries
    ensures states[j].cache.entries[key] == states[i].cache.entries[key]
  {
    if i < j {
      LivingEntryIsConstant(states, steps, key, i, j - 1);
      assert states[j] == Next(states[j - 1], steps[j - 1]);
      StepNeverRewrites(states[j - 1], steps[j - 1], key);
    }
  }

  /** Callers that finish for a key while its entry lives all get one value, the one cached. */
  lemma CallersAgree<V>(states: seq<System<V>>, steps: seq<Step<V>>, key: QueryKey, i: nat, j: nat, v: V, w: V)
    requires Run(states, steps) && i <= j < |steps|
    requires forall n :: i < n <= j + 1 ==> key in states[n].cache.entries
    requires Answer(states[i], steps[i]) == Some((key, v))
    requires Answer(states[j], steps[j]) == Some((key, w))
    ensures v == w == states[j + 1].cache.entries[key].value
  {
    LivingEntryIsConstant(states, steps, key, i + 1, j + 1);
    AnswerIsCached(states[i], steps[i]);
    AnswerIsCached(states[j], steps[j]);
  }

  lemma AnswerIsCached<V>(sys: System<V>, step: Step<V>)
    requires Enabled(sys, step) && Answer(sys, step).Some?
    ensures var (key, v) := Answer(sys, step).value;
      key in Next(sys, step).cache.entries && Next(sys, step).cache.entries[key].value == v
  {
  }

  // ----- Entries and the queries they were built from -----

  /** No entry has outlived a query it was built from. */
  ghost predicate NoOrphans<V>(entries: map<QueryKey, CachedQuery<V>>) {
    forall k, q :: k in entries && Query(q) in entries[k].dependencies ==> q in entries
  }

  /** The commit finds every query it depends on cached (or is itself that query). */
  ghost predicate FindsDependencies<V>(sys: System<V>, step: Step<V>)
    requires Enabled(sys, step)
  {
    step.Finish? ==>
      || sys.pending[step.caller] in sys.cache.entries
      || forall q :: Query(q) in step.dependencies ==> q in sys.cache.entries || q == sys.pending[step.caller]
  }

  lemma InvalidationLeavesNoOrphans<V>(entries: map<QueryKey, CachedQuery<V>>, input: InputId)
    requires NoOrphans(entries)
    ensures NoOrphans(entries - Affected(entries, input))
  {
    AffectedIsLeastClosed(entries, input);
  }

  /** A step makes an orphan exactly when it is a commit that misses a dependency. */
  lemma OrphansComeFromBlindCommits<V>(sys: System<V>, step: Step<V>)
    requires Enabled(sys, step) && NoOrphans(sys.cache.entries)
    ensures NoOrphans(Next(sys, step).cache.entries) <==> FindsDependencies(sys, step)
  {
    match step
    case Finish(caller, dependencies, computed) =>
      var key := sys.pending[caller];
      if key !in sys.cache.entries {
        var after := sys.cache.entries[key := CachedQuery(computed, dependencies)];
        assert Next(sys, step).cache.entries == after;
        assert after[key].dependencies == dependencies;
      }
    case Invalidate(input) =>
      InvalidationLeavesNoOrphans(sys.cache.entries, input);
    case _ =>
  }

  lemma {:induction false} SightedCommitsLeaveNoOrphans<V>(states: seq<System<V>>, steps: seq<Step<V>>, n: nat)
    requires Run(states, steps) && n < |states|
    requires forall m {:trigger steps[m]} :: 0 <= m < n ==> FindsDependencies(states[m], steps[m])
    ensures NoOrphans(states[n].cache.entries)
  {
    if n > 0 {
      SightedCommitsLeaveNoOrphans(states, steps, n - 1);
      OrphansComeFromBlindCommits(states[n - 1], steps[n - 1]);
    }
  }

  /** A run has no orphan at any point if and only if every commit found its dependencies. */
  lemma NoOrphansInRun<V>(states: seq<System<V>>, steps: seq<Step<V>>)
    requires Run(states, steps)
    ensures (forall n :: 0 <= n < |states| ==> NoOrphans(states[n].cache.entries))
       <==> (forall n {:trigger steps[n]} :: 0 <= n < |steps| ==> FindsDependencies(states[n], steps[n]))
  {
    if forall n :: 0 <= n < |states| ==> NoOrphans(states[n].cache.entries) {
      forall n | 0 <= n < |steps|
        ensures FindsDependencies(states[n], steps[n])
      {
        OrphansComeFromBlindCommits(states[n], steps[n]);
        assert NoOrphans(states[n + 1].cache.entries);
      }
    }
    if forall n {:trigger steps[n]} :: 0 <= n < |steps| ==> FindsDependencies(states[n], steps[n]) {
      forall n | 0 <= n < |states|
        ensures NoOrphans(states[n].cache.entries)
      {
        SightedCommitsLeaveNoOrphans(states, steps, n);
      }
    }
  }
}
