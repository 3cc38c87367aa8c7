/** The command-line check that remembers successes on disk. */
module ProjectChecks {
  import opened Wrappers
  import opened Queries
  import opened Fingerprints
  import opened SemanticInputs
  import opened SemanticSessions
  import opened PersistentCaches

  datatype Verdict<+D> = Passed | Failed(diagnostic: D)

  /** A project, the compilers that may check it by toolchain, and the disk cache they share. `readError` is the
      diagnostic for a main file that cannot be read. */
  datatype Setting<!D> = Setting(
    h: Hashing,
    store: Store<bool>,
    compiler: string -> Checker<Verdict<D>>,
    readError: string -> D,
    project: string,
    target: string,
    main: string)

  /** The fingerprinted request: the collected files, and no overlay. */
  function RequestFor<D>(s: Setting<D>, files: seq<string>, disk: Disk): Request {
    Request(s.project, s.target, s.main, files, [], disk)
  }

  function KeyFor<D>(s: Setting<D>, toolchain: string, files: seq<string>, disk: Disk): QueryKey {
    KeyOf(s.h, toolchain, "semantic-check-success", RequestFor(s, files, disk))
  }

  /** A check without a cache. It reads the main file besides the collected ones. */
  function CleanVerdict<D>(s: Setting<D>, toolchain: string, files: seq<string>, disk: Disk): Verdict<D> {
    match disk(s.main)
    case Unreadable(error) => Failed(s.readError(error))
    case Contents(_) => s.compiler(toolchain)(s.project, s.target, s.main, View(s.h, files + [s.main], [], disk))
  }

  function CachedVerdict<D>(
    s: Setting<D>, cached: Files, toolchain: string, files: seq<string>, disk: Disk): Verdict<D>
  {
    if disk(s.main).Contents? && Fetched(s.store, cached, KeyFor(s, toolchain, files, disk)) == Some(true) then Passed
    else CleanVerdict(s, toolchain, files, disk)
  }

  /** The cache events of one check that finds the cache at `cached`. */
  function Recorded<D>(
    s: Setting<D>, cached: Files, toolchain: string, files: seq<string>, disk: Disk,
    removable: bool, outcome: WriteOutcome, now: nat, length: nat): seq<Event<bool>>
  {
    var key := KeyFor(s, toolchain, files, disk);
    if disk(s.main).Unreadable? then []
    else if Fetched(s.store, cached, key) == Some(true) || CleanVerdict(s, toolchain, files, disk).Failed?
    then [Get(key, removable)]
    else [Get(key, removable), Insert(key, true, outcome, now, length)]
  }

  lemma AfterOne(s: Store<bool>, start: Files, e: Event<bool>)
    ensures AfterEvents(s, start, [e]) == AfterEvent(s, start, e)
  {
    assert [e][..0] == [];
  }

  lemma AfterTwo(s: Store<bool>, start: Files, e: Event<bool>, f: Event<bool>)
    ensures AfterEvents(s, start, [e, f]) == AfterEvent(s, AfterEvent(s, start, e), f)
  {
    assert [e, f][..1] == [e];
    AfterOne(s, start, e);
  }

  method CheckProjectWithPersistentCache<D>(
    s: Setting<D>, cache: PersistentQueryCache<bool>, toolchain: string, files: seq<string>, disk: Disk,
    removable: bool, outcome: WriteOutcome, now: nat, length: nat, walkable: bool, stuck: set<string>)
    returns (verdict: Verdict<D>, ghost gone: set<string>)
    requires cache.store == s.store
    modifies cache
    ensures verdict == CachedVerdict(s, old(cache.files), toolchain, files, disk)
    ensures cache.files == AfterEvents(s.store, old(cache.files),
      Recorded(s, old(cache.files), toolchain, files, disk, removable, outcome, now, length)) - gone
  {
    gone := {};
    if disk(s.main).Unreadable? {
      return Failed(s.readError(disk(s.main).error)), {};
    }
    var key := KeyFor(s, toolchain, files, disk);
    ghost var get: Event<bool> := Get(key, removable);
    ghost var insert: Event<bool> := Insert(key, true, outcome, now, length);
    AfterOne(s.store, cache.files, get);
    AfterTwo(s.store, cache.files, get, insert);
    var hit := cache.Get(key, removable);
    if hit == Some(true) {
      return Passed, {};
    }
    verdict := s.compiler(toolchain)(s.project, s.target, s.main, View(s.h, files + [s.main], [], disk));
    if verdict.Passed? {
      var _, pruned := cache.Insert(key, true, outcome, now, length, walkable, stuck);
      gone := pruned;
    }
  }

  // ----- Runs of checks, edits, evictions and damage -----

  /** An edit is a change of `disk` from one check to the next, an upgrade a change of `toolchain`. */
  datatype Action =
    | Check(
        toolchain: string, files: seq<string>, disk: Disk, removable: bool, outcome: WriteOutcome, now: nat,
        length: nat)
    | Evict(gone: set<string>)
    | Damage(path: string, file: StoredFile)

  function Events<D>(s: Setting<D>, actions: seq<Action>): seq<Event<bool>> {
    if actions == [] then []
    else
      var before := Events(s, actions[..|actions| - 1]);
      match actions[|actions| - 1]
      case Check(toolchain, files, disk, removable, outcome, now, length) =>
        before + Recorded(
          s, AfterEvents(s.store, map[], before), toolchain, files, disk, removable, outcome, now, length)
      case Evict(gone) => before + [Event.Evict(gone)]
      case Damage(path, file) => before + [Event.Damage(path, file)]
  }

  ghost predicate Proper<D>(s: Setting<D>, actions: seq<Action>) {
    forall n :: 0 <= n < |actions| ==>
      match actions[n]
      case Check(_, files, disk, _, _, _, _) => WellFormed(s.h, RequestFor(s, files, disk))
      case Evict(_) => true
      case Damage(path, file) => Legal(s.store, Event.Damage(path, file))
  }

  /** The verdict of the last action, a check, after all the others. */
  function LastVerdict<D>(s: Setting<D>, actions: seq<Action>): Verdict<D>
    requires actions != [] && actions[|actions| - 1].Check?
  {
    var last := actions[|actions| - 1];
    CachedVerdict(s, AfterEvents(s.store, map[], Events(s, actions[..|actions| - 1])), last.toolchain, last.files,
      last.disk)
  }

  function LastClean<D>(s: Setting<D>, actions: seq<Action>): Verdict<D>
    requires actions != [] && actions[|actions| - 1].Check?
  {
    var last := actions[|actions| - 1];
    CleanVerdict(s, last.toolchain, last.files, last.disk)
  }

  /** Every check of the run had its main file among the fingerprinted ones. */
  ghost predicate MainCollected<D>(s: Setting<D>, actions: seq<Action>) {
    forall n :: 0 <= n < |actions| && actions[n].Check? ==> s.main in actions[n].files
  }

  // ----- Collected main files: the cache is invisible -----

  /** The clean verdict as a function of the fingerprinted view. */
  function ViewChecker<D>(s: Setting<D>, toolchain: string): Checker<Verdict<D>> {
    (project: string, target: string, path: string, view: map<string, ReadResult>) =>
      if path in view && view[path].Unreadable? then Failed(s.readError(view[path].error))
      else s.compiler(toolchain)(project, target, path, view)
  }

  lemma CollectedMainIsInTheView<D>(s: Setting<D>, toolchain: string, files: seq<string>, disk: Disk)
    requires s.main in files
    ensures CleanVerdict(s, toolchain, files, disk) == Clean(s.h, ViewChecker(s, toolchain), RequestFor(s, files, disk))
  {
    ViewIgnoresOrder(s.h, files + [s.main], [], files, [], disk);
    assert s.main in View(s.h, files, [], disk);
  }

  /** Some well-formed check keyed `key` came out clean. */
  ghost predicate Earned<D>(s: Setting<D>, key: QueryKey) {
    exists toolchain, files, disk: Disk ::
      && s.main in files
      && WellFormed(s.h, RequestFor(s, files, disk))
      && KeyFor(s, toolchain, files, disk) == key
      && CleanVerdict(s, toolchain, files, disk).Passed?
  }

  /** A key tells the toolchain, so that another compiler's success is never taken for one's own. */
  lemma EqualKeysEqualVerdicts<D>(
    s: Setting<D>, toolchain: string, files: seq<string>, disk: Disk, toolchain': string, files': seq<string>,
    disk': Disk)
    requires Faithful(s.h) && s.main in files && s.main in files'
    requires WellFormed(s.h, RequestFor(s, files, disk)) && WellFormed(s.h, RequestFor(s, files', disk'))
    requires KeyFor(s, toolchain, files, disk) == KeyFor(s, toolchain', files', disk')
    ensures CleanVerdict(s, toolchain, files, disk) == CleanVerdict(s, toolchain', files', disk')
  {
    KeyDeterminesAnswer(
      s.h, toolchain, "semantic-check-success", ViewChecker(s, toolchain),
      RequestFor(s, files, disk), RequestFor(s, files', disk'));
    CollectedMainIsInTheView(s, toolchain, files, disk);
    CollectedMainIsInTheView(s, toolchain, files', disk');
  }

  lemma EarnedMeansClean<D>(s: Setting<D>, toolchain: string, files: seq<string>, disk: Disk)
    requires Faithful(s.h) && s.main in files && WellFormed(s.h, RequestFor(s, files, disk))
    requires Earned(s, KeyFor(s, toolchain, files, disk))
    ensures CleanVerdict(s, toolchain, files, disk) == Passed
  {
    var toolchain', files', disk': Disk :|
      && s.main in files'
      && WellFormed(s.h, RequestFor(s, files', disk'))
      && KeyFor(s, toolchain', files', disk') == KeyFor(s, toolchain, files, disk)
      && CleanVerdict(s, toolchain', files', disk').Passed?;
    EqualKeysEqualVerdicts(s, toolchain, files, disk, toolchain', files', disk');
  }

  ghost predicate AllEarned<D>(s: Setting<D>, events: seq<Event<bool>>) {
    forall key :: LastInserted(events, key).Some? ==> LastInserted(events, key) == Some(true) && Earned(s, key)
  }

  lemma QuietEventKeepsEarned<D>(s: Setting<D>, events: seq<Event<bool>>, event: Event<bool>)
    requires AllEarned(s, events) && !event.Insert?
    ensures AllEarned(s, events + [event])
  {
    assert (events + [event])[..|events|] == events;
    assert forall key :: LastInserted(events + [event], key) == LastInserted(events, key);
  }

  lemma EarnedInsertKeepsEarned<D>(
    s: Setting<D>, events: seq<Event<bool>>, key: QueryKey, outcome: WriteOutcome, now: nat, length: nat)
    requires AllEarned(s, events) && Earned(s, key)
    ensures AllEarned(s, events + [Insert(key, true, outcome, now, length)])
  {
    var after := events + [Insert(key, true, outcome, now, length)];
    assert after[..|events|] == events;
    forall k | LastInserted(after, k).Some?
      ensures LastInserted(after, k) == Some(true) && Earned(s, k)
    {
      assert (LastInserted(after, k) == Some(true) && k == key) || LastInserted(after, k) == LastInserted(events, k);
    }
  }

  lemma CheckKeepsEarned<D>(
    s: Setting<D>, events: seq<Event<bool>>, toolchain: string, files: seq<string>, disk: Disk, removable: bool,
    outcome: WriteOutcome, now: nat, length: nat, recorded: seq<Event<bool>>)
    requires AllEarned(s, events) && WellFormed(s.h, RequestFor(s, files, disk)) && s.main in files
    requires recorded == Recorded(
      s, AfterEvents(s.store, map[], events), toolchain, files, disk, removable, outcome, now, length)
    ensures AllEarned(s, events + recorded)
  {
    var key := KeyFor(s, toolchain, files, disk);
    QuietEventKeepsEarned(s, events, Get(key, removable));
    if |recorded| == 2 {
      assert Earned(s, key);
      EarnedInsertKeepsEarned(s, events + [Get(key, removable)], key, outcome, now, length);
      assert events + recorded == events + [Get(key, removable)] + [Insert(key, true, outcome, now, length)];
    } else {
      assert events + [] == events;
    }
  }

  /** Only successes are ever written, each under the key of a check that succeeded. */
  lemma {:induction false} OnlySuccessesAreStored<D>(s: Setting<D>, actions: seq<Action>)
    requires Proper(s, actions) && MainCollected(s, actions)
    ensures AllEarned(s, Events(s, actions))
  {
    if actions != [] {
      var before := actions[..|actions| - 1];
      OnlySuccessesAreStored(s, before);
      var events := Events(s, before);
      match actions[|actions| - 1] {
        case Check(toolchain, files, disk, removable, outcome, now, length) =>
          CheckKeepsEarned(
            s, events, toolchain, files, disk, removable, outcome, now, length,
            Recorded(
              s, AfterEvents(s.store, map[], events), toolchain, files, disk, removable, outcome, now, length));
        case Evict(gone) =>
          QuietEventKeepsEarned(s, events, Event.Evict(gone));
        case Damage(path, file) =>
          QuietEventKeepsEarned(s, events, Event.Damage(path, file));
      }
    }
  }

  lemma {:induction false} EventsAreLegal<D>(s: Setting<D>, actions: seq<Action>)
    requires Proper(s, actions)
    ensures forall n :: 0 <= n < |Events(s, actions)| ==> Legal(s.store, Events(s, actions)[n])
  {
    if actions != [] {
      EventsAreLegal(s, actions[..|actions| - 1]);
      assert Proper(s, actions[..|actions| - 1]);
      var last := actions[|actions| - 1];
    }
  }

  /** Over any run of checks, edits, upgrades, evictions and damage, a cached verdict is the clean verdict. */
  lemma CachedVerdictsAreClean<D>(s: Setting<D>, actions: seq<Action>)
    requires Faithful(s.h) && RoundTrips(s.store)
    requires actions != [] && actions[|actions| - 1].Check?
    requires Proper(s, actions) && MainCollected(s, actions)
    ensures LastVerdict(s, actions) == LastClean(s, actions)
  {
    var before, last := actions[..|actions| - 1], actions[|actions| - 1];
    var key := KeyFor(s, last.toolchain, last.files, last.disk);
    EventsAreLegal(s, before);
    OnlySuccessesAreStored(s, before);
    GetIsLossy(s.store, Events(s, before), key);
    if Fetched(s.store, AfterEvents(s.store, map[], Events(s, before)), key) == Some(true) {
      EarnedMeansClean(s, last.toolchain, last.files, last.disk);
    }
  }

  // ----- Uncollected main files: a stale success -----

  /** A run that ends in a check, all of whose checks fingerprint the file list `files`. */
  ghost predicate EndsInCheck<D>(s: Setting<D>, files: seq<string>, actions: seq<Action>) {
    && actions != []
    && actions[|actions| - 1].Check?
    && Proper(s, actions)
    && forall n :: 0 <= n < |actions| && actions[n].Check? ==> actions[n].files == files
  }

  /** Every cached verdict of every run over the file list `files` is the clean verdict. */
  ghost predicate AlwaysClean<D>(s: Setting<D>, files: seq<string>) {
    forall actions: seq<Action> :: EndsInCheck(s, files, actions) ==> LastVerdict(s, actions) == LastClean(s, actions)
  }

  predicate IsEmpty(source: ReadResult) {
    source.Contents? && |source.bytes| == 0
  }

  /** Accepts the project while its main file is empty. */
  function EmptyMainChecker<D>(diagnostic: D): Checker<Verdict<D>> {
    (project: string, target: string, path: string, view: map<string, ReadResult>) =>
      if path in view && IsEmpty(view[path]) then Passed else Failed(diagnostic)
  }

  function DiskWithMain(main: string, bytes: Bytes): Disk {
    (path: string) => if path == main then Contents(bytes) else Contents([])
  }

  /** Check an empty main file, then edit it, then check again with the same compiler. */
  function EditMain(toolchain: string, main: string, files: seq<string>): seq<Action> {
    [Check(toolchain, files, DiskWithMain(main, []), true, Written, 0, 0),
     Check(toolchain, files, DiskWithMain(main, [0]), true, Written, 1, 0)]
  }

  /** Text takes at least a byte a character, and the paths at hand have 64-bit lengths. */
  ghost predicate Sized(h: Hashing, files: seq<string>) {
    && (forall t :: |h.utf8(t)| >= |t|)
    && |h.utf8(SESSION_MARK)| < U64_LIMIT
    && forall p :: p in files ==> |h.utf8(p)| < U64_LIMIT
  }

  lemma EventsOfFirstCheck<D>(s: Setting<D>, toolchain: string, files: seq<string>, disk: Disk)
    requires disk(s.main).Contents? && CleanVerdict(s, toolchain, files, disk).Passed?
    ensures var key := KeyFor(s, toolchain, files, disk);
      Events(s, [Check(toolchain, files, disk, true, Written, 0, 0)])
      == [Get(key, true), Insert(key, true, Written, 0, 0)]
  {
    var run := [Check(toolchain, files, disk, true, Written, 0, 0)];
    assert run[..0] == [];
    assert Events(s, run) == [] + Recorded(s, map[], toolchain, files, disk, true, Written, 0, 0);
  }

  /** Once a check has passed and been stored, the next check with its key passes too. */
  lemma SecondCheckPasses<D>(s: Setting<D>, toolchain: string, files: seq<string>, d0: Disk, second: Action)
    requires RoundTrips(s.store)
    requires d0(s.main).Contents? && CleanVerdict(s, toolchain, files, d0).Passed?
    requires second.Check? && second.disk(s.main).Contents?
    requires KeyFor(s, second.toolchain, second.files, second.disk) == KeyFor(s, toolchain, files, d0)
    ensures LastVerdict(s, [Check(toolchain, files, d0, true, Written, 0, 0), second]).Passed?
  {
    var key := KeyFor(s, toolchain, files, d0);
    var first := Check(toolchain, files, d0, true, Written, 0, 0);
    assert [first, second][..1] == [first];
    EventsOfFirstCheck(s, toolchain, files, d0);
    AfterTwo(s.store, map[], Get(key, true), Insert(key, true, Written, 0, 0));
    GetAfterInsert(s.store, AfterGet(s.store, map[], key, true), key, true, 0, 0);
  }

  lemma EditIsNotFingerprinted<D>(s: Setting<D>, toolchain: string, files: seq<string>)
    requires s.main !in files
    ensures KeyFor(s, toolchain, files, DiskWithMain(s.main, []))
      == KeyFor(s, toolchain, files, DiskWithMain(s.main, [0]))
  {
    var d0, d1 := DiskWithMain(s.main, []), DiskWithMain(s.main, [0]);
    assert FilePairs(s.h, files, [], d0) == FilePairs(s.h, files, [], d1);
  }

  lemma EditIsProper<D>(s: Setting<D>, files: seq<string>, bytes: Bytes)
    requires Sized(s.h, files) && ':' !in s.project && s.main !in files
    ensures WellFormed(s.h, RequestFor(s, files, DiskWithMain(s.main, bytes)))
  {
  }

  lemma EditRunEndsInCheck<D>(s: Setting<D>, toolchain: string, files: seq<string>)
    requires Sized(s.h, files) && ':' !in s.project && s.main !in files
    ensures EndsInCheck(s, files, EditMain(toolchain, s.main, files))
  {
    EditIsProper(s, files, []);
    EditIsProper(s, files, [0]);
  }

  lemma CleanVerdictsOfEdit<D>(s: Setting<D>, toolchain: string, files: seq<string>, diagnostic: D)
    requires s.compiler(toolchain) == EmptyMainChecker(diagnostic)
    ensures CleanVerdict(s, toolchain, files, DiskWithMain(s.main, [])).Passed?
    ensures CleanVerdict(s, toolchain, files, DiskWithMain(s.main, [0])).Failed?
  {
    assert View(s.h, files + [s.main], [], DiskWithMain(s.main, []))[s.main] == Contents([]);
    assert View(s.h, files + [s.main], [], DiskWithMain(s.main, [0]))[s.main] == Contents([0]);
  }

  lemma StaleSuccess<D>(s: Setting<D>, toolchain: string, files: seq<string>, diagnostic: D)
    requires RoundTrips(s.store) && s.main !in files
    requires s.compiler(toolchain) == EmptyMainChecker(diagnostic)
    ensures var run := EditMain(toolchain, s.main, files); LastVerdict(s, run) != LastClean(s, run)
  {
    EditIsNotFingerprinted(s, toolchain, files);
    CleanVerdictsOfEdit(s, toolchain, files, diagnostic);
    SecondCheckPasses(s, toolchain, files, DiskWithMain(s.main, []), EditMain(toolchain, s.main, files)[1]);
  }

  /** For a given file list, caching is invisible whatever the compilers if and only if the main file is on it. */
  lemma CachingIsInvisibleIffMainIsCollected<D>(s: Setting<D>, files: seq<string>, diagnostic: D)
    requires Faithful(s.h) && RoundTrips(s.store) && Sized(s.h, files) && ':' !in s.project
    ensures s.main in files <==> forall compiler :: AlwaysClean(s.(compiler := compiler), files)
  {
    if s.main in files {
      forall compiler
        ensures AlwaysClean(s.(compiler := compiler), files)
      {
        var t := s.(compiler := compiler);
        forall actions: seq<Action> | EndsInCheck(t, files, actions)
          ensures LastVerdict(t, actions) == LastClean(t, actions)
        {
          CachedVerdictsAreClean(t, actions);
        }
      }
    } else {
      var t := s.(compiler := (_: string) => EmptyMainChecker(diagnostic));
      EditRunEndsInCheck(t, "", files);
      StaleSuccess(t, "", files, diagnostic);
      assert !AlwaysClean(t, files);
    }
  }
}
