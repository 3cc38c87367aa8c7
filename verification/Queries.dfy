/** Values of the in-memory query cache and what each of its critical sections does to them. */
module Queries {

  const QUERY_SCHEMA_VERSION := 1

  type InputId = string

  datatype QueryKey = QueryKey(
    schema: nat,
    toolchain: string,
    target: string,
    namespace: string,
    identity: string,
    fingerprint: string)

  datatype QueryDependency = Input(input: InputId) | Query(query: QueryKey)

  datatype CachedQuery<V> = CachedQuery(value: V, dependencies: set<QueryDependency>)

  datatype CacheState<V> = CacheState(
    entries: map<QueryKey, CachedQuery<V>>,
    inputDependents: map<InputId, set<QueryKey>>,
    queryDependents: map<QueryKey, set<QueryKey>>,
    hits: nat,
    misses: nat,
    insertions: nat,
    invalidations: nat,
    generation: nat)

  function EmptyCache<V>(): CacheState<V> {
    CacheState(map[], map[], map[], 0, 0, 0, 0, 0)
  }

  // ----- What invalidation must remove -----

  ghost function DependentsOf<V>(entries: map<QueryKey, CachedQuery<V>>, source: QueryDependency): set<QueryKey> {
    set k | k in entries && source in entries[k].dependencies
  }

  /** `s` holds every entry built from `input` or from a query in `s`. */
  ghost predicate ClosedUnder<V>(entries: map<QueryKey, CachedQuery<V>>, input: InputId, s: set<QueryKey>) {
    && (forall k :: k in entries && Input(input) in entries[k].dependencies ==> k in s)
    && (forall k, q :: k in entries && q in s && Query(q) in entries[k].dependencies ==> k in s)
  }

  /** The entries that lie in every closed set. */
  ghost function Affected<V>(entries: map<QueryKey, CachedQuery<V>>, input: InputId): set<QueryKey> {
    set k | k in entries && forall s: set<QueryKey> :: ClosedUnder(entries, input, s) ==> k in s
  }

  lemma AffectedIsLeastClosed<V>(entries: map<QueryKey, CachedQuery<V>>, input: InputId)
    ensures ClosedUnder(entries, input, Affected(entries, input))
    ensures forall s: set<QueryKey> :: ClosedUnder(entries, input, s) ==> Affected(entries, input) <= s
  {
    var least := Affected(entries, input);
    forall k, q | k in entries && q in least && Query(q) in entries[k].dependencies
      ensures k in least
    {
      forall s: set<QueryKey> | ClosedUnder(entries, input, s)
        ensures k in s
      {
        assert q in s;
      }
    }
  }

  /** A dependency chain: `path[0]` reads `input` and each later query reads the one before it. */
  ghost predicate Chain<V>(entries: map<QueryKey, CachedQuery<V>>, input: InputId, path: seq<QueryKey>) {
    && path != []
    && (forall j :: 0 <= j < |path| ==> path[j] in entries)
    && Input(input) in entries[path[0]].dependencies
    && (forall j :: 0 < j < |path| ==> Query(path[j - 1]) in entries[path[j]].dependencies)
  }

  ghost predicate Reached<V>(entries: map<QueryKey, CachedQuery<V>>, input: InputId, key: QueryKey) {
    exists path :: Chain(entries, input, path) && path[|path| - 1] == key
  }

  lemma {:induction false} ChainIsAffected<V>(
    entries: map<QueryKey, CachedQuery<V>>, input: InputId, path: seq<QueryKey>)
    requires Chain(entries, input, path)
    ensures path[|path| - 1] in Affected(entries, input)
  {
    AffectedIsLeastClosed(entries, input);
    if |path| > 1 {
      var shorter := path[..|path| - 1];
      ChainIsAffected(entries, input, shorter);
      assert Query(path[|path| - 2]) in entries[path[|path| - 1]].dependencies;
    }
  }

  lemma ChainExtends<V>(
    entries: map<QueryKey, CachedQuery<V>>, input: InputId, path: seq<QueryKey>, k: QueryKey)
    requires Chain(entries, input, path)
    requires k in entries && Query(path[|path| - 1]) in entries[k].dependencies
    ensures Chain(entries, input, path + [k])
  {
  }

  lemma ReachedIsClosed<V>(entries: map<QueryKey, CachedQuery<V>>, input: InputId, s: set<QueryKey>)
    requires forall k :: k in s <==> k in entries && Reached(entries, input, k)
    ensures ClosedUnder(entries, input, s)
  {
    forall k | k in entries && Input(input) in entries[k].dependencies
      ensures k in s
    {
      var path := [k];
      assert Chain(entries, input, path) && path[|path| - 1] == k;
    }
    forall k, q | k in entries && q in s && Query(q) in entries[k].dependencies
      ensures k in s
    {
      var path :| Chain(entries, input, path) && path[|path| - 1] == q;
      ChainExtends(entries, input, path, k);
      assert (path + [k])[|path + [k]| - 1] == k;
    }
  }

  /** The least closed set is what can be reached by walking dependency edges, cycles included. */
  lemma AffectedMeansReached<V>(entries: map<QueryKey, CachedQuery<V>>, input: InputId, key: QueryKey)
    ensures key in Affected(entries, input) <==> Reached(entries, input, key)
  {
    if Reached(entries, input, key) {
      var path :| Chain(entries, input, path) && path[|path| - 1] == key;
      ChainIsAffected(entries, input, path);
    }
    if key in Affected(entries, input) {
      var reached := set k | k in entries && Reached(entries, input, k);
      ReachedIsClosed(entries, input, reached);
      assert key in reached;
    }
  }

  // ----- The reverse indexes -----

  ghost predicate InputIndexExact<V>(entries: map<QueryKey, CachedQuery<V>>, index: map<InputId, set<QueryKey>>) {
    forall i ::
      && (i in index ==> index[i] == DependentsOf(entries, Input(i)) && index[i] != {})
      && (i !in index ==> DependentsOf(entries, Input(i)) == {})
  }

  ghost predicate QueryIndexExact<V>(entries: map<QueryKey, CachedQuery<V>>, index: map<QueryKey, set<QueryKey>>) {
    forall q ::
      && (q in index ==> index[q] == DependentsOf(entries, Query(q)) && index[q] != {})
      && (q !in index ==> DependentsOf(entries, Query(q)) == {})
  }

  /** Both indexes are the inverse of the dependency sets and hold no empty set. */
  ghost predicate IndexExact<V>(s: CacheState<V>) {
    InputIndexExact(s.entries, s.inputDependents) && QueryIndexExact(s.entries, s.queryDependents)
  }

  function InputsIn(dependencies: set<QueryDependency>): set<InputId> {
    set d | d in dependencies && d.Input? :: d.input
  }

  function QueriesIn(dependencies: set<QueryDependency>): set<QueryKey> {
    set d | d in dependencies && d.Query? :: d.query
  }

  /** `index` after registering `key` with every one of `sources`. */
  function Linked<K>(index: map<K, set<QueryKey>>, sources: set<K>, key: QueryKey): map<K, set<QueryKey>> {
    map i | i in index.Keys + sources ::
      (if i in index then index[i] else {}) + (if i in sources then {key} else {})
  }

  function Unlinked<K>(index: map<K, set<QueryKey>>, sources: set<K>, key: QueryKey): map<K, set<QueryKey>> {
    map i | i in index :: if i in sources then index[i] - {key} else index[i]
  }

  function Nonempty<K>(index: map<K, set<QueryKey>>): map<K, set<QueryKey>> {
    map i | i in index && index[i] != {} :: index[i]
  }

  function Without<K>(index: map<K, set<QueryKey>>, removed: set<QueryKey>): map<K, set<QueryKey>> {
    map i | i in index && index[i] - removed != {} :: index[i] - removed
  }

  // ----- The four critical sections as functions of the state -----

  /** First half of a lookup: count it as a hit or a miss. */
  function Looked<V>(s: CacheState<V>, key: QueryKey): CacheState<V> {
    if key in s.entries then s.(hits := s.hits + 1) else s.(misses := s.misses + 1)
  }

  /** Second half: the first commit of a key wins, a later one counts as a hit. */
  function Committed<V>(s: CacheState<V>, key: QueryKey, dependencies: set<QueryDependency>, value: V): CacheState<V> {
    if key in s.entries then s.(hits := s.hits + 1)
    else s.(
      entries := s.entries[key := CachedQuery(value, dependencies)],
      inputDependents := Linked(s.inputDependents, InputsIn(dependencies), key),
      queryDependents := Linked(s.queryDependents, QueriesIn(dependencies), key),
      insertions := s.insertions + 1,
      generation := s.generation + 1)
  }

  ghost function Invalidated<V>(s: CacheState<V>, input: InputId): CacheState<V> {
    var removed := Affected(s.entries, input);
    s.(
      entries := s.entries - removed,
      inputDependents := Without(s.inputDependents, removed),
      queryDependents := Without(s.queryDependents, removed),
      invalidations := s.invalidations + |removed|,
      generation := if removed != {} then s.generation + 1 else s.generation)
  }

  function Cleared<V>(s: CacheState<V>): CacheState<V> {
    s.(
      entries := map[],
      inputDependents := map[],
      queryDependents := map[],
      invalidations := s.invalidations + |s.entries|,
      generation := if |s.entries| > 0 then s.generation + 1 else s.generation)
  }

  // ----- Each critical section keeps the indexes exact -----

  lemma DependentsAfterCommit<V>(
    entries: map<QueryKey, CachedQuery<V>>, key: QueryKey, cached: CachedQuery<V>, d: QueryDependency)
    requires key !in entries
    ensures DependentsOf(entries[key := cached], d)
         == DependentsOf(entries, d) + (if d in cached.dependencies then {key} else {})
  {
  }

  lemma SourcesOfDependencies(dependencies: set<QueryDependency>)
    ensures forall i :: i in InputsIn(dependencies) <==> Input(i) in dependencies
    ensures forall q :: q in QueriesIn(dependencies) <==> Query(q) in dependencies
  {
    forall i
      ensures i in InputsIn(dependencies) <==> Input(i) in dependencies
    {
      assert Input(i).input == i;
    }
    forall q
      ensures q in QueriesIn(dependencies) <==> Query(q) in dependencies
    {
      assert Query(q).query == q;
    }
  }

  lemma LinkKeepsInputIndexExact<V>(
    entries: map<QueryKey, CachedQuery<V>>, index: map<InputId, set<QueryKey>>, key: QueryKey, cached: CachedQuery<V>)
    requires key !in entries && InputIndexExact(entries, index)
    ensures InputIndexExact(entries[key := cached], Linked(index, InputsIn(cached.dependencies), key))
  {
    SourcesOfDependencies(cached.dependencies);
    forall i {
      DependentsAfterCommit(entries, key, cached, Input(i));
    }
  }

  lemma LinkKeepsQueryIndexExact<V>(
    entries: map<QueryKey, CachedQuery<V>>, index: map<QueryKey, set<QueryKey>>, key: QueryKey, cached: CachedQuery<V>)
    requires key !in entries && QueryIndexExact(entries, index)
    ensures QueryIndexExact(entries[key := cached], Linked(index, QueriesIn(cached.dependencies), key))
  {
    SourcesOfDependencies(cached.dependencies);
    forall q {
      DependentsAfterCommit(entries, key, cached, Query(q));
    }
  }

  lemma CommitKeepsIndexExact<V>(s: CacheState<V>, key: QueryKey, dependencies: set<QueryDependency>, value: V)
    requires IndexExact(s)
    ensures IndexExact(Committed(s, key, dependencies, value))
  {
    if key !in s.entries {
      var cached := CachedQuery(value, dependencies);
      LinkKeepsInputIndexExact(s.entries, s.inputDependents, key, cached);
      LinkKeepsQueryIndexExact(s.entries, s.queryDependents, key, cached);
    }
  }

  lemma InvalidateKeepsIndexExact<V>(s: CacheState<V>, input: InputId)
    requires IndexExact(s)
    ensures IndexExact(Invalidated(s, input))
  {
    var removed := Affected(s.entries, input);
    var t := Invalidated(s, input);
    forall d: QueryDependency
      ensures DependentsOf(t.entries, d) == DependentsOf(s.entries, d) - removed
    {
    }
  }

  /** Exact indexes are a function of the entries: nothing else can be read off them. */
  lemma ExactIndexesAreUnique<V>(s: CacheState<V>, t: CacheState<V>)
    requires IndexExact(s) && IndexExact(t) && s.entries == t.entries
    ensures s.inputDependents == t.inputDependents && s.queryDependents == t.queryDependents
  {
    forall i
      ensures i in s.inputDependents <==> i in t.inputDependents
      ensures i in s.inputDependents ==> s.inputDependents[i] == t.inputDependents[i]
    {
    }
    forall q
      ensures q in s.queryDependents <==> q in t.queryDependents
      ensures q in s.queryDependents ==> s.queryDependents[q] == t.queryDependents[q]
    {
    }
  }
}
