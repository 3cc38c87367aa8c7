/** The semantic session, next to the clean queries it stands in for. */
module SemanticSessions {
  import opened Wrappers
  import opened Queries
  import opened QueryCaches
  import opened Fingerprints
  import opened SourceOverlays
  import opened SemanticInputs
  import CacheRuns

  /** A check looks at nothing but the project's name, the target, the checked path and the effective sources. */
  type Checker<!V> = (string, string, string, map<string, ReadResult>) -> V

  datatype Request = Request(
    project: string, target: string, path: string, files: seq<string>, overlays: seq<Overlay>, disk: Disk)

  function ViewOf(h: Hashing, r: Request): map<string, ReadResult> {
    View(h, r.files, r.overlays, r.disk)
  }

  function Clean<V>(h: Hashing, check: Checker<V>, r: Request): V {
    check(r.project, r.target, r.path, ViewOf(h, r))
  }

  function KeyOf(h: Hashing, toolchain: string, namespace: string, r: Request): QueryKey {
    QueryKey(
      QUERY_SCHEMA_VERSION, toolchain, r.target, namespace, r.project + ":" + r.path,
      "sha256:" + h.sha256(Stream(Parts(h, r.files, r.overlays, r.disk))))
  }

  /** A project name has no colon, since the module root derived from it admits none. */
  ghost predicate Keyable(h: Hashing, r: Request) {
    ':' !in r.project && OneSourcePerPath(r.overlays) && Addressable(h, ViewOf(h, r))
  }

  ghost predicate WellFormed(h: Hashing, r: Request) {
    Keyable(h, r) && Legible(h, ViewOf(h, r))
  }

  lemma {:induction false} NameAndPathAreRecoverable(n1: string, p1: string, n2: string, p2: string)
    requires ':' !in n1 && ':' !in n2 && n1 + ":" + p1 == n2 + ":" + p2
    ensures n1 == n2 && p1 == p2
  {
    var s, t := n1 + ":" + p1, n2 + ":" + p2;
    assert s[|n1|] == ':' && t[|n2|] == ':';
    assert forall i :: 0 <= i < |n1| ==> s[i] == n1[i];
    assert forall i :: 0 <= i < |n2| ==> t[i] == n2[i];
    assert |n1| == |n2|;
    assert n1 == s[..|n1|] == t[..|n2|] == n2;
    assert p1 == s[|n1| + 1..] == t[|n2| + 1..] == p2;
  }

  /** A key determines the project, the target, the path and the hashed view of its request. */
  lemma KeyDeterminesHashedView(h: Hashing, toolchain: string, namespace: string, r: Request, s: Request)
    requires Faithful(h) && Keyable(h, r) && Keyable(h, s)
    requires KeyOf(h, toolchain, namespace, r) == KeyOf(h, toolchain, namespace, s)
    ensures r.project == s.project && r.target == s.target && r.path == s.path
    ensures HashedView(h, ViewOf(h, r)) == HashedView(h, ViewOf(h, s))
  {
    NameAndPathAreRecoverable(r.project, r.path, s.project, s.path);
    AddressableIsShort(h, r.files, r.overlays, r.disk);
    AddressableIsShort(h, s.files, s.overlays, s.disk);
    var p1, p2 := Parts(h, r.files, r.overlays, r.disk), Parts(h, s.files, s.overlays, s.disk);
    PrefixCancels("sha256:", h.sha256(Stream(p1)), h.sha256(Stream(p2)));
    EqualStreamsEqualHashedViews(h, r.files, r.overlays, r.disk, s.files, s.overlays, s.disk);
  }

  /** Keys of different toolchains, or of different kinds of query, are different. */
  lemma KeysTellQueriesApart(
    h: Hashing, toolchain: string, namespace: string, r: Request, toolchain': string, namespace': string, s: Request)
    requires KeyOf(h, toolchain, namespace, r) == KeyOf(h, toolchain', namespace', s)
    ensures toolchain == toolchain' && namespace == namespace'
  {
  }

  ghost predicate AnswerAlike(h: Hashing, r: Request, s: Request) {
    forall check: Checker<bool> :: Clean(h, check, r) == Clean(h, check, s)
  }

  lemma ChecksTellViewsApart(h: Hashing, r: Request, s: Request)
    requires r.project == s.project && r.target == s.target && r.path == s.path
    ensures AnswerAlike(h, r, s) <==> ViewOf(h, r) == ViewOf(h, s)
  {
    var view := ViewOf(h, r);
    var check: Checker<bool> := (_: string, _: string, _: string, v: map<string, ReadResult>) => v == view;
    assert Clean(h, check, r);
    assert ViewOf(h, r) != ViewOf(h, s) ==> !Clean(h, check, s);
  }

  /** Two requests of one key have one clean answer, whatever is asked of them, if and only if they agree on which
      of their sources could be read. */
  lemma KeyDeterminesAnswerIff(h: Hashing, toolchain: string, namespace: string, r: Request, s: Request)
    requires Faithful(h) && Keyable(h, r) && Keyable(h, s)
    requires KeyOf(h, toolchain, namespace, r) == KeyOf(h, toolchain, namespace, s)
    ensures AnswerAlike(h, r, s) <==> ReadAlike(ViewOf(h, r), ViewOf(h, s))
  {
    KeyDeterminesHashedView(h, toolchain, namespace, r, s);
    HashedViewsDetermineViews(h, ViewOf(h, r), ViewOf(h, s));
    ChecksTellViewsApart(h, r, s);
  }

  /** Requests with one key and no source that spells a read error have one clean answer. */
  lemma KeyDeterminesAnswer<V>(
    h: Hashing, toolchain: string, namespace: string, check: Checker<V>, r: Request, s: Request)
    requires Faithful(h) && WellFormed(h, r) && WellFormed(h, s)
    requires KeyOf(h, toolchain, namespace, r) == KeyOf(h, toolchain, namespace, s)
    ensures Clean(h, check, r) == Clean(h, check, s)
  {
    KeyDeterminesHashedView(h, toolchain, namespace, r, s);
    LegibleViewsAreEqual(h, ViewOf(h, r), ViewOf(h, s));
  }

  /** Every path of the view is a declared input. */
  ghost predicate Covers(dependencies: set<QueryDependency>, view: map<string, ReadResult>) {
    forall p :: p in view ==> FileInput(p) in dependencies
  }

  /** `entry` is the clean answer to the request, and depends on every path that the request sees. */
  ghost predicate AnswersFor<V>(h: Hashing, check: Checker<V>, r: Request, entry: CachedQuery<V>) {
    WellFormed(h, r) && Clean(h, check, r) == entry.value && Covers(entry.dependencies, ViewOf(h, r))
  }

  /** `entry` is the answer to some request keyed `key`. */
  ghost predicate Vouched<V(!new)>(
    h: Hashing, toolchain: string, namespace: string, check: Checker<V>, key: QueryKey, entry: CachedQuery<V>)
  {
    exists r :: AnswersFor(h, check, r, entry) && KeyOf(h, toolchain, namespace, r) == key
  }

  ghost predicate AllVouched<V(!new)>(
    h: Hashing, toolchain: string, namespace: string, check: Checker<V>, entries: map<QueryKey, CachedQuery<V>>)
  {
    forall k :: k in entries ==> Vouched(h, toolchain, namespace, check, k, entries[k])
  }

  lemma VouchedIsClean<V(!new)>(
    h: Hashing, toolchain: string, namespace: string, check: Checker<V>, r: Request, entry: CachedQuery<V>)
    requires Faithful(h) && WellFormed(h, r)
    requires Vouched(h, toolchain, namespace, check, KeyOf(h, toolchain, namespace, r), entry)
    ensures entry.value == Clean(h, check, r)
  {
    var s :| AnswersFor(h, check, s, entry)
      && KeyOf(h, toolchain, namespace, s) == KeyOf(h, toolchain, namespace, r);
    KeyDeterminesAnswer(h, toolchain, namespace, check, r, s);
  }

  lemma OneHashedViewOnePaths(h: Hashing, v: map<string, ReadResult>, w: map<string, ReadResult>)
    requires HashedView(h, v) == HashedView(h, w)
    ensures v.Keys == w.Keys
  {
    assert v.Keys == HashedView(h, v).Keys;
    assert w.Keys == HashedView(h, w).Keys;
  }

  /** Whatever request an entry answers, it depends on every path that request sees. */
  lemma VouchedIsCovered<V(!new)>(
    h: Hashing, toolchain: string, namespace: string, check: Checker<V>, r: Request, entry: CachedQuery<V>)
    requires Faithful(h) && WellFormed(h, r)
    requires Vouched(h, toolchain, namespace, check, KeyOf(h, toolchain, namespace, r), entry)
    ensures Covers(entry.dependencies, ViewOf(h, r))
  {
    var s :| AnswersFor(h, check, s, entry)
      && KeyOf(h, toolchain, namespace, s) == KeyOf(h, toolchain, namespace, r);
    CoversTheSame(h, toolchain, namespace, s, r, entry.dependencies);
  }

  lemma CoversTheSame(
    h: Hashing, toolchain: string, namespace: string, r: Request, s: Request, dependencies: set<QueryDependency>)
    requires Faithful(h) && Keyable(h, r) && Keyable(h, s) && Covers(dependencies, ViewOf(h, r))
    requires KeyOf(h, toolchain, namespace, r) == KeyOf(h, toolchain, namespace, s)
    ensures Covers(dependencies, ViewOf(h, s))
  {
    KeyDeterminesHashedView(h, toolchain, namespace, r, s);
    OneHashedViewOnePaths(h, ViewOf(h, r), ViewOf(h, s));
  }

  /** What depends on a file is affected by it. */
  lemma DependentIsAffected<V>(entries: map<QueryKey, CachedQuery<V>>, path: string, key: QueryKey)
    requires key in entries && FileInput(path) in entries[key].dependencies
    ensures key in Affected(entries, "file:" + path)
  {
    AffectedIsLeastClosed(entries, "file:" + path);
  }

  /** Forgetting what was built from a path forgets the answer to every request that sees the path. */
  lemma InvalidatedForgets<V(!new)>(
    h: Hashing, toolchain: string, namespace: string, check: Checker<V>, entries: map<QueryKey, CachedQuery<V>>,
    path: string, r: Request)
    requires Faithful(h) && WellFormed(h, r) && path in ViewOf(h, r)
    requires AllVouched(h, toolchain, namespace, check, entries)
    ensures KeyOf(h, toolchain, namespace, r) in entries ==>
      KeyOf(h, toolchain, namespace, r) in Affected(entries, "file:" + path)
  {
    var key := KeyOf(h, toolchain, namespace, r);
    if key in entries {
      VouchedIsCovered(h, toolchain, namespace, check, r, entries[key]);
      DependentIsAffected(entries, path, key);
    }
  }

  /** Some request that sees exactly `view` has an answer here. */
  ghost predicate CheckHeld<V>(
    h: Hashing, toolchain: string, entries: map<QueryKey, CachedQuery<V>>, project: string, target: string,
    path: string, view: map<string, ReadResult>)
  {
    exists r ::
      && WellFormed(h, r) && r.project == project && r.target == target && r.path == path && ViewOf(h, r) == view
      && KeyOf(h, toolchain, "semantic-check", r) in entries
  }

  lemma ForgottenChecks<V(!new)>(
    h: Hashing, toolchain: string, check: Checker<V>, entries: map<QueryKey, CachedQuery<V>>, changed: string,
    project: string, target: string, path: string, view: map<string, ReadResult>)
    requires Faithful(h) && changed in view && AllVouched(h, toolchain, "semantic-check", check, entries)
    ensures !CheckHeld(h, toolchain, entries - Affected(entries, "file:" + changed), project, target, path, view)
    ensures CheckHeld(h, toolchain, entries, project, target, path, view) ==>
      |Affected(entries, "file:" + changed)| > 0
  {
    forall r | WellFormed(h, r) && ViewOf(h, r) == view
      && KeyOf(h, toolchain, "semantic-check", r) in entries
      ensures KeyOf(h, toolchain, "semantic-check", r) in Affected(entries, "file:" + changed)
    {
      InvalidatedForgets(h, toolchain, "semantic-check", check, entries, changed, r);
    }
  }

  /** Some request that sees `changed` has an answer here. */
  ghost predicate CheckSees<V>(
    h: Hashing, toolchain: string, entries: map<QueryKey, CachedQuery<V>>, changed: string)
  {
    exists project, target, path, view ::
      CheckHeld(h, toolchain, entries, project, target, path, view) && changed in view
  }

  lemma NoCheckSees<V(!new)>(
    h: Hashing, toolchain: string, check: Checker<V>, entries: map<QueryKey, CachedQuery<V>>, changed: string)
    requires Faithful(h) && AllVouched(h, toolchain, "semantic-check", check, entries)
    ensures !CheckSees(h, toolchain, entries - Affected(entries, "file:" + changed), changed)
    ensures CheckSees(h, toolchain, entries, changed) ==> |Affected(entries, "file:" + changed)| > 0
  {
    forall project, target, path, view: map<string, ReadResult> | changed in view
      ensures !CheckHeld(h, toolchain, entries - Affected(entries, "file:" + changed), project, target, path, view)
      ensures CheckHeld(h, toolchain, entries, project, target, path, view) ==>
        |Affected(entries, "file:" + changed)| > 0
    {
      ForgottenChecks(h, toolchain, check, entries, changed, project, target, path, view);
    }
  }

  // ----- The editor session, over every interleaving -----

  /** Every caller that finishes has run the clean check for a request with its key, and declares what the request
      sees. */
  ghost predicate Honest<V(!new)>(
    h: Hashing, toolchain: string, namespace: string, check: Checker<V>,
    states: seq<CacheRuns.System<V>>, steps: seq<CacheRuns.Step<V>>)
    requires CacheRuns.Run(states, steps)
  {
    forall n {:trigger steps[n]} :: 0 <= n < |steps| && steps[n].Finish? ==>
      Vouched(
        h, toolchain, namespace, check, states[n].pending[steps[n].caller],
        CachedQuery(steps[n].computed, steps[n].dependencies))
  }

  /** Every entry was there before, or is one that has just been committed. */
  ghost predicate ComesFrom<V>(
    before: map<QueryKey, CachedQuery<V>>, step: CacheRuns.Step<V>, sys: CacheRuns.System<V>,
    after: map<QueryKey, CachedQuery<V>>)
    requires CacheRuns.Enabled(sys, step)
  {
    forall k :: k in after ==>
      || (k in before && after[k] == before[k])
      || (&& step.Finish? && k == sys.pending[step.caller]
          && after[k] == CachedQuery(step.computed, step.dependencies))
  }

  lemma StepComesFrom<V>(sys: CacheRuns.System<V>, step: CacheRuns.Step<V>)
    requires CacheRuns.Enabled(sys, step)
    ensures ComesFrom(sys.cache.entries, step, sys, CacheRuns.Next(sys, step).cache.entries)
  {
  }

  lemma {:induction false} SessionKeepsVouched<V(!new)>(
    h: Hashing, toolchain: string, namespace: string, check: Checker<V>,
    states: seq<CacheRuns.System<V>>, steps: seq<CacheRuns.Step<V>>, n: nat)
    requires CacheRuns.Run(states, steps) && n < |states|
    requires Honest(h, toolchain, namespace, check, states, steps)
    ensures AllVouched(h, toolchain, namespace, check, states[n].cache.entries)
  {
    if n > 0 {
      SessionKeepsVouched(h, toolchain, namespace, check, states, steps, n - 1);
      assert states[n] == CacheRuns.Next(states[n - 1], steps[n - 1]);
      StepComesFrom(states[n - 1], steps[n - 1]);
    }
  }

  /** Whatever edits, invalidations, clears and other callers came before, an answer is the clean answer. */
  lemma SessionAnswersAreClean<V(!new)>(
    h: Hashing, toolchain: string, namespace: string, check: Checker<V>,
    states: seq<CacheRuns.System<V>>, steps: seq<CacheRuns.Step<V>>, n: nat, r: Request, v: V)
    requires Faithful(h) && WellFormed(h, r)
    requires CacheRuns.Run(states, steps) && n < |steps|
    requires Honest(h, toolchain, namespace, check, states, steps)
    requires CacheRuns.Answer(states[n], steps[n]) == Some((KeyOf(h, toolchain, namespace, r), v))
    ensures v == Clean(h, check, r)
  {
    SessionKeepsVouched(h, toolchain, namespace, check, states, steps, n);
    AnswerIsVouched(h, toolchain, namespace, check, states[n], steps[n], r, v);
  }

  lemma AnswerIsVouched<V(!new)>(
    h: Hashing, toolchain: string, namespace: string, check: Checker<V>, sys: CacheRuns.System<V>,
    step: CacheRuns.Step<V>, r: Request, v: V)
    requires Faithful(h) && WellFormed(h, r) && CacheRuns.Enabled(sys, step)
    requires AllVouched(h, toolchain, namespace, check, sys.cache.entries)
    requires step.Finish? ==> Vouched(
      h, toolchain, namespace, check, sys.pending[step.caller], CachedQuery(step.computed, step.dependencies))
    requires CacheRuns.Answer(sys, step) == Some((KeyOf(h, toolchain, namespace, r), v))
    ensures v == Clean(h, check, r)
  {
    var key := KeyOf(h, toolchain, namespace, r);
    if key in sys.cache.entries {
      VouchedIsClean(h, toolchain, namespace, check, r, sys.cache.entries[key]);
    } else {
      VouchedIsClean(h, toolchain, namespace, check, r, CachedQuery(step.computed, step.dependencies));
    }
  }

  /** In every interleaving, right after a path has been invalidated no request that sees it has an answer cached. */
  lemma InvalidationIsThorough<V(!new)>(
    h: Hashing, toolchain: string, namespace: string, check: Checker<V>,
    states: seq<CacheRuns.System<V>>, steps: seq<CacheRuns.Step<V>>, n: nat, path: string, r: Request)
    requires Faithful(h) && WellFormed(h, r) && path in ViewOf(h, r)
    requires CacheRuns.Run(states, steps) && n < |steps|
    requires Honest(h, toolchain, namespace, check, states, steps)
    requires steps[n] == CacheRuns.Invalidate("file:" + path)
    ensures KeyOf(h, toolchain, namespace, r) !in states[n + 1].cache.entries
  {
    SessionKeepsVouched(h, toolchain, namespace, check, states, steps, n);
    InvalidatedForgets(h, toolchain, namespace, check, states[n].cache.entries, path, r);
    assert states[n + 1] == CacheRuns.Next(states[n], steps[n]);
  }

  // ----- The symbols query -----

  /** Symbols are looked up in nothing but the project and its effective sources. */
  type Indexer<!S> = (string, map<string, ReadResult>) -> S

  function SymbolsKeyOf(h: Hashing, toolchain: string, r: Request): QueryKey {
    KeyOf(h, toolchain, "semantic-symbols", r).(identity := r.project)
  }

  /** `entry` is the clean answer to the symbols request, and depends on every path that the request sees. */
  ghost predicate SymbolsFor<S>(h: Hashing, index: Indexer<S>, r: Request, entry: CachedQuery<S>) {
    WellFormed(h, r) && index(r.project, ViewOf(h, r)) == entry.value && Covers(entry.dependencies, ViewOf(h, r))
  }

  /** `entry` is the answer to some symbols request keyed `key`. */
  ghost predicate SymbolsVouched<S(!new)>(
    h: Hashing, toolchain: string, index: Indexer<S>, key: QueryKey, entry: CachedQuery<S>)
  {
    exists r :: SymbolsFor(h, index, r, entry) && SymbolsKeyOf(h, toolchain, r) == key
  }

  /** Requests of one symbols key see one view. */
  lemma SymbolsKeyDeterminesView(h: Hashing, toolchain: string, r: Request, s: Request)
    requires Faithful(h) && WellFormed(h, r) && WellFormed(h, s)
    requires SymbolsKeyOf(h, toolchain, r) == SymbolsKeyOf(h, toolchain, s)
    ensures r.project == s.project && ViewOf(h, r) == ViewOf(h, s)
  {
    var r', s' := r.(path := "", target := ""), s.(path := "", target := "");
    KeyDeterminesHashedView(h, toolchain, "", r', s');
    LegibleViewsAreEqual(h, ViewOf(h, r), ViewOf(h, s));
  }

  /** One symbols key has one clean answer, and its entry depends on what its requests see. */
  lemma SymbolsAreClean<S(!new)>(h: Hashing, toolchain: string, index: Indexer<S>, r: Request, entry: CachedQuery<S>)
    requires Faithful(h) && WellFormed(h, r)
    requires SymbolsVouched(h, toolchain, index, SymbolsKeyOf(h, toolchain, r), entry)
    ensures entry.value == index(r.project, ViewOf(h, r)) && Covers(entry.dependencies, ViewOf(h, r))
  {
    var s :| SymbolsFor(h, index, s, entry) && SymbolsKeyOf(h, toolchain, s) == SymbolsKeyOf(h, toolchain, r);
    SymbolsKeyDeterminesView(h, toolchain, r, s);
  }

  lemma InvalidatedForgetsSymbols<S(!new)>(
    h: Hashing, toolchain: string, index: Indexer<S>, entries: map<QueryKey, CachedQuery<S>>, path: string, r: Request)
    requires Faithful(h) && WellFormed(h, r) && path in ViewOf(h, r)
    requires AllSymbolsVouched(h, toolchain, index, entries)
    ensures SymbolsKeyOf(h, toolchain, r) in entries ==>
      SymbolsKeyOf(h, toolchain, r) in Affected(entries, "file:" + path)
  {
    var key := SymbolsKeyOf(h, toolchain, r);
    if key in entries {
      SymbolsAreClean(h, toolchain, index, r, entries[key]);
      DependentIsAffected(entries, path, key);
    }
  }

  /** Some symbols request that sees exactly `view` has an answer here. */
  ghost predicate SymbolsHeld<S>(
    h: Hashing, toolchain: string, entries: map<QueryKey, CachedQuery<S>>, project: string, target: string,
    view: map<string, ReadResult>)
  {
    exists r ::
      && WellFormed(h, r) && r.project == project && r.target == target && ViewOf(h, r) == view
      && SymbolsKeyOf(h, toolchain, r) in entries
  }

  ghost predicate AllSymbolsVouched<S(!new)>(
    h: Hashing, toolchain: string, index: Indexer<S>, entries: map<QueryKey, CachedQuery<S>>)
  {
    forall k :: k in entries ==> SymbolsVouched(h, toolchain, index, k, entries[k])
  }

  lemma ForgottenSymbols<S(!new)>(
    h: Hashing, toolchain: string, index: Indexer<S>, entries: map<QueryKey, CachedQuery<S>>, changed: string,
    project: string, target: string, view: map<string, ReadResult>)
    requires Faithful(h) && changed in view && AllSymbolsVouched(h, toolchain, index, entries)
    ensures !SymbolsHeld(h, toolchain, entries - Affected(entries, "file:" + changed), project, target, view)
    ensures SymbolsHeld(h, toolchain, entries, project, target, view) ==>
      |Affected(entries, "file:" + changed)| > 0
  {
    forall r | WellFormed(h, r) && ViewOf(h, r) == view && SymbolsKeyOf(h, toolchain, r) in entries
      ensures SymbolsKeyOf(h, toolchain, r) in Affected(entries, "file:" + changed)
    {
      InvalidatedForgetsSymbols(h, toolchain, index, entries, changed, r);
    }
  }

  ghost predicate SymbolsSee<S>(
    h: Hashing, toolchain: string, entries: map<QueryKey, CachedQuery<S>>, changed: string)
  {
    exists project, target, view :: SymbolsHeld(h, toolchain, entries, project, target, view) && changed in view
  }

  lemma NoSymbolsSee<S(!new)>(
    h: Hashing, toolchain: string, index: Indexer<S>, entries: map<QueryKey, CachedQuery<S>>, changed: string)
    requires Faithful(h) && AllSymbolsVouched(h, toolchain, index, entries)
    ensures !SymbolsSee(h, toolchain, entries - Affected(entries, "file:" + changed), changed)
    ensures SymbolsSee(h, toolchain, entries, changed) ==> |Affected(entries, "file:" + changed)| > 0
  {
    forall project, target, view: map<string, ReadResult> | changed in view
      ensures !SymbolsHeld(h, toolchain, entries - Affected(entries, "file:" + changed), project, target, view)
      ensures SymbolsHeld(h, toolchain, entries, project, target, view) ==>
        |Affected(entries, "file:" + changed)| > 0
    {
      ForgottenSymbols(h, toolchain, index, entries, changed, project, target, view);
    }
  }

  // ----- The session object -----

  /** For one toolchain, checker and indexer. `unavailable` is the diagnostic for a project whose modules cannot be
      resolved. */
  class IncrementalSemanticSession<!V(!new), !S(!new)> {
    const h: Hashing
    const toolchain: string
    const check: Checker<V>
    const index: Indexer<S>
    const unavailable: (string, string) -> V
    const noSymbols: (string, string) -> S
    const checks: QueryCache<V>
    const symbols: QueryCache<S>

    ghost predicate Valid()
      reads this, checks, symbols
    {
      && (checks as object) != symbols
      && checks.Valid() && AllVouched(h, toolchain, "semantic-check", check, checks.entries)
      && symbols.Valid() && AllSymbolsVouched(h, toolchain, index, symbols.entries)
    }

    /** A check with this view is cached. */
    ghost predicate ChecksHold(project: string, target: string, path: string, view: map<string, ReadResult>)
      reads this, checks
    {
      CheckHeld(h, toolchain, checks.entries, project, target, path, view)
    }

    /** The symbols of this view are cached. */
    ghost predicate SymbolsHold(project: string, target: string, view: map<string, ReadResult>)
      reads this, symbols
    {
      SymbolsHeld(h, toolchain, symbols.entries, project, target, view)
    }

    /** A request that sees the path, for a check or for symbols, has an answer cached. */
    ghost predicate SomeAnswerSees(path: string)
      reads this, checks, symbols
    {
      CheckSees(h, toolchain, checks.entries, path) || SymbolsSee(h, toolchain, symbols.entries, path)
    }

    constructor (
      h: Hashing, toolchain: string, check: Checker<V>, index: Indexer<S>, unavailable: (string, string) -> V,
      noSymbols: (string, string) -> S)
      ensures Valid() && fresh(checks) && fresh(symbols)
      ensures this.h == h && this.toolchain == toolchain && this.check == check && this.index == index
      ensures this.unavailable == unavailable && this.noSymbols == noSymbols
    {
      this.h, this.toolchain, this.check, this.index := h, toolchain, check, index;
      this.unavailable, this.noSymbols := unavailable, noSymbols;
      checks := new QueryCache();
      symbols := new QueryCache();
    }

    /** The request of a query in the form that was fingerprinted, and its declared dependencies. */
    method Prepare(
      project: string, target: string, path: string, overrides: seq<Overlay>, collected: seq<string>, disk: Disk)
      returns (fingerprint: string, dependencies: seq<QueryDependency>, request: Request)
      requires OneSourcePerPath(overrides)
      ensures KeyOf(h, toolchain, "", request).fingerprint == fingerprint
      ensures request.project == project && request.target == target && request.path == path
      ensures OneSourcePerPath(request.overlays)
      ensures ViewOf(h, request) == View(h, collected, overrides, disk)
      ensures forall p :: p in ViewOf(h, request) ==> FileInput(p) in dependencies
    {
      var inputs, files, overlays;
      fingerprint, inputs, files, overlays := CollectSemanticInputs(h, collected, overrides, disk);
      ViewIgnoresOrder(h, collected, overrides, files, overlays, disk);
      LookupIgnoresOrder(overrides, overlays, path);
      request := Request(project, target, path, files, overlays, disk);
      dependencies := inputs;
    }

    method AskChecks(key: QueryKey, dependencies: seq<QueryDependency>, clean: V) returns (answer: V)
      requires Valid()
      requires Vouched(h, toolchain, "semantic-check", check, key, CachedQuery(clean, set d | d in dependencies))
      modifies checks
      ensures Valid() && key in checks.entries && answer == checks.entries[key].value
    {
      answer := checks.GetOrCompute(key, set d | d in dependencies, () => clean);
    }

    /** `collected` are the files of the project and its modules, or why they cannot be found. */
    method CheckProjectText(
      project: string, target: string, path: string, source: string, sourceOverrides: seq<Overlay>,
      collected: Result<seq<string>, string>, disk: Disk)
      returns (answer: V)
      requires Valid() && Faithful(h)
      requires collected.Ok? ==> WellFormed(h, Request(
        project, target, path, collected.value, OverridesWithCurrent(path, source, sourceOverrides), disk))
      modifies checks
      ensures Valid()
      ensures collected.Ok? ==> answer == Clean(h, check, Request(
        project, target, path, collected.value, OverridesWithCurrent(path, source, sourceOverrides), disk))
      ensures collected.Ok? ==> ChecksHold(
        project, target, path,
        View(h, collected.value, OverridesWithCurrent(path, source, sourceOverrides), disk))
      ensures collected.Err? ==> answer == unavailable(project, collected.error) && unchanged(checks)
    {
      if collected.Err? {
        return unavailable(project, collected.error);
      }
      var current := ReplaceSourceOverride(sourceOverrides, path, source);
      var overrides := Ordering.Sort(Ordering.ByName(PathOf), current);
      var fingerprint, dependencies, request := Prepare(project, target, path, overrides, collected.value, disk);
      var key := QueryKey(
        QUERY_SCHEMA_VERSION, toolchain, target, "semantic-check", project + ":" + path, fingerprint);
      var clean := Clean(h, check, request);
      assert AnswersFor(h, check, request, CachedQuery(clean, set d | d in dependencies));
      answer := AskChecks(key, dependencies, clean);
      VouchedIsClean(h, toolchain, "semantic-check", check, request, checks.entries[key]);
    }

    method SymbolsForProject(
      project: string, target: string, sourceOverrides: seq<Overlay>, collected: Result<seq<string>, string>,
      disk: Disk)
      returns (answer: S)
      requires Valid() && Faithful(h)
      requires collected.Ok? ==> WellFormed(h, Request(project, target, "", collected.value, sourceOverrides, disk))
      modifies symbols
      ensures Valid()
      ensures collected.Ok? ==> answer == index(project, View(h, collected.value, sourceOverrides, disk))
      ensures collected.Ok? ==> SymbolsHold(project, target, View(h, collected.value, sourceOverrides, disk))
      ensures collected.Err? ==> answer == noSymbols(project, collected.error) && unchanged(symbols)
    {
      if collected.Err? {
        return noSymbols(project, collected.error);
      }
      var fingerprint, dependencies, request := Prepare(project, target, "", sourceOverrides, collected.value, disk);
      var key := QueryKey(QUERY_SCHEMA_VERSION, toolchain, target, "semantic-symbols", project, fingerprint);
      var clean := index(project, ViewOf(h, request));
      assert SymbolsFor(h, index, request, CachedQuery(clean, set d | d in dependencies));
      answer := symbols.GetOrCompute(key, set d | d in dependencies, () => clean);
      SymbolsAreClean(h, toolchain, index, request, symbols.entries[key]);
    }

    /** Both caches forget exactly what was built from the path. No request that sees the path has an answer left, and
        if one had, something was removed. */
    method InvalidatePath(path: string) returns (removed: nat)
      requires Valid()
      modifies checks, symbols
      ensures Valid()
      ensures checks.State() == Invalidated(old(checks.State()), "file:" + path)
      ensures symbols.State() == Invalidated(old(symbols.State()), "file:" + path)
      ensures removed
        == |Affected(old(checks.entries), "file:" + path)| + |Affected(old(symbols.entries), "file:" + path)|
      ensures Faithful(h) ==> !SomeAnswerSees(path)
      ensures Faithful(h) && old(SomeAnswerSees(path)) ==> removed > 0
    {
      ghost var before, names := checks.entries, symbols.entries;
      var first := checks.InvalidateInput("file:" + path);
      var second := symbols.InvalidateInput("file:" + path);
      removed := first + second;
      if Faithful(h) {
        NoCheckSees(h, toolchain, check, before, path);
        NoSymbolsSee(h, toolchain, index, names, path);
      }
    }

    method Clear() returns (removed: nat)
      requires Valid()
      modifies checks, symbols
      ensures Valid()
      ensures checks.State() == Cleared(old(checks.State())) && symbols.State() == Cleared(old(symbols.State()))
      ensures removed == |old(checks.entries)| + |old(symbols.entries)|
    {
      var first := checks.Clear();
      var second := symbols.Clear();
      removed := first + second;
    }
  }
}
