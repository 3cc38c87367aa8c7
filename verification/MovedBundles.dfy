/** A prepared bundle that is loaded under another root than it was written under. */
module MovedBundles {
  import opened Wrappers
  import opened BundlePaths
  import opened PreparedBundles
  import opened BundleRoundTrip

  /** The result read under `root'` from a bundle written under `root`. */
  function Moved(f: Json, root: string, root': string): Json
    requires |root| > 0 && |root'| > 0
  {
    MapBundlePaths(MapBundlePaths(f, root, true), root', false)
  }

  // ----- Strings and trees -----

  ghost predicate SettlesTree(v: Json, root: string, root': string)
    requires |root| > 0 && |root'| > 0
    decreases v
  {
    match v
    case Dict(fields) => forall key :: key in fields ==> SettlesTree(fields[key], root, root')
    case List(items) => forall i :: 0 <= i < |items| ==> SettlesTree(items[i], root, root')
    case Str(text) => Settles(text, root, root')
    case _ => true
  }

  ghost predicate StaysTree(v: Json, root: string, root': string)
    requires |root| > 0 && |root'| > 0
    decreases v
  {
    match v
    case Dict(fields) => forall key :: key in fields ==> StaysTree(fields[key], root, root')
    case List(items) => forall i :: 0 <= i < |items| ==> StaysTree(items[i], root, root')
    case Str(text) => Stays(text, root, root')
    case _ => true
  }

  lemma {:induction false} TreeSettlesIff(v: Json, root: string, root': string)
    requires |root| > 0 && |root'| > 0
    ensures MapBundlePaths(Moved(v, root, root'), root', true) == MapBundlePaths(v, root, true)
      <==> SettlesTree(v, root, root')
    decreases v
  {
    var stored, again := MapBundlePaths(v, root, true), MapBundlePaths(Moved(v, root, root'), root', true);
    match v {
      case Dict(fields) =>
        forall key | key in fields
          ensures key in again.fields && key in stored.fields
          ensures again.fields[key] == stored.fields[key] <==> SettlesTree(fields[key], root, root')
        {
          TreeSettlesIff(fields[key], root, root');
        }
        if SettlesTree(v, root, root') {
          assert again.fields == stored.fields;
        }
      case List(items) =>
        forall i | 0 <= i < |items|
          ensures again.items[i] == stored.items[i] <==> SettlesTree(items[i], root, root')
        {
          TreeSettlesIff(items[i], root, root');
        }
        if SettlesTree(v, root, root') {
          assert again.items == stored.items;
        }
      case _ =>
    }
  }

  lemma {:induction false} TreeStaysIff(v: Json, root: string, root': string)
    requires |root| > 0 && |root'| > 0
    ensures Moved(v, root, root') == v <==> StaysTree(v, root, root')
    decreases v
  {
    var there := Moved(v, root, root');
    match v {
      case Dict(fields) =>
        forall key | key in fields
          ensures key in there.fields && (there.fields[key] == fields[key] <==> StaysTree(fields[key], root, root'))
        {
          TreeStaysIff(fields[key], root, root');
        }
        if StaysTree(v, root, root') {
          assert there.fields == fields;
        }
      case List(items) =>
        forall i | 0 <= i < |items|
          ensures there.items[i] == items[i] <==> StaysTree(items[i], root, root')
        {
          TreeStaysIff(items[i], root, root');
        }
        if StaysTree(v, root, root') {
          assert there.items == items;
        }
      case _ =>
    }
  }

  // ----- Moving commutes with access -----

  lemma MovedGet(v: Json, key: string, default: Json, root: string, root': string)
    requires |root| > 0 && |root'| > 0 && default in {Null, NOTHING, List([])}
    ensures Get(Moved(v, root, root'), key, default) == Moved(Get(v, key, default), root, root')
  {
    assert Moved(default, root, root') == default by {
      MovedDefault(root, root');
    }
  }

  lemma MovedDefault(root: string, root': string)
    requires |root| > 0 && |root'| > 0
    ensures Moved(Null, root, root') == Null
    ensures Moved(NOTHING, root, root') == NOTHING
    ensures Moved(List([]), root, root') == List([])
  {
    assert Moved(NOTHING, root, root').fields == map[];
    assert Moved(List([]), root, root').items == [];
  }

  lemma MovedPut(v: Json, key: string, value: Json, root: string, root': string)
    requires |root| > 0 && |root'| > 0 && v.Dict?
    ensures Moved(v, root, root').Dict?
    ensures Moved(Put(v, key, value), root, root') == Put(Moved(v, root, root'), key, Moved(value, root, root'))
  {
    var a, b := Moved(Put(v, key, value), root, root'), Put(Moved(v, root, root'), key, Moved(value, root, root'));
    assert a.fields.Keys == b.fields.Keys;
    assert forall k :: k in a.fields ==> a.fields[k] == b.fields[k];
    assert a.fields == b.fields;
  }

  lemma MovedInProvenance(f: Json, key: string, root: string, root': string)
    requires |root| > 0 && |root'| > 0 && HasProvenance(f)
    ensures HasProvenance(Moved(f, root, root'))
    ensures Moved(InProvenance(f, key, Null), root, root') == InProvenance(Moved(f, root, root'), key, Null)
  {
    MovedPut(f.fields["provenance"], key, Null, root, root');
    MovedPut(f, "provenance", Put(f.fields["provenance"], key, Null), root, root');
  }

  // ----- What the digest is taken of -----

  /** The result without its digest and the qualification bound to it. */
  function Unsealed(f: Json): Json
    requires HasProvenance(f)
  {
    InProvenance(InProvenance(f, "prepared_bundle_sha256", Null), "environment_qualification", Null)
  }

  lemma ProjectionSettlesIff(f: Json, root: string, root': string)
    requires |root| > 0 && |root'| > 0 && HasProvenance(f)
    ensures var g := Moved(f, root, root');
      && HasProvenance(g)
      && (Projection(g, root') == Projection(f, root) <==> SettlesTree(Unsealed(f), root, root'))
  {
    var bare := InProvenance(f, "prepared_bundle_sha256", Null);
    MovedInProvenance(f, "prepared_bundle_sha256", root, root');
    MovedInProvenance(bare, "environment_qualification", root, root');
    assert Unsealed(Moved(f, root, root')) == Moved(Unsealed(f), root, root');
    TreeSettlesIff(Unsealed(f), root, root');
  }

  ghost predicate DistinctKeys(entries: seq<(string, Json)>) {
    forall i, j :: 0 <= i < j < |entries| ==> entries[i].0 != entries[j].0
  }

  lemma {:induction false} ObjectHolds(entries: seq<(string, Json)>, i: nat)
    requires DistinctKeys(entries) && i < |entries|
    ensures Get(Object(entries), entries[i].0, Null) == entries[i].1
  {
    var n := |entries| - 1;
    if i < n {
      ObjectHolds(entries[..n], i);
      assert entries[..n][i] == entries[i];
    }
  }

  lemma ObjectsAgree(x: seq<(string, Json)>, y: seq<(string, Json)>)
    requires DistinctKeys(x) && |x| == |y| && forall i :: 0 <= i < |x| ==> x[i].0 == y[i].0
    ensures Object(x) == Object(y) <==> x == y
  {
    if Object(x) == Object(y) {
      forall i | 0 <= i < |x|
        ensures x[i] == y[i]
      {
        ObjectHolds(x, i);
        ObjectHolds(y, i);
      }
    }
  }

  /** The parts of a result that its bindings are taken from. */
  function HostOf(f: Json): Json {
    Get(Get(f, "provenance", NOTHING), "host", NOTHING)
  }

  function ToolchainsOf(f: Json): Json {
    Get(Get(f, "provenance", NOTHING), "toolchains", NOTHING)
  }

  function SourceLockOf(f: Json): Json {
    Get(Get(f, "provenance", NOTHING), "source_lock", List([]))
  }

  function LaneOf(f: Json, lane: string): Json {
    Get(Get(f, "release_lanes", NOTHING), lane, NOTHING)
  }

  function EntriesOf(suite: Suite, f: Json): seq<(string, Json)> {
    BindingEntries(
      suite, HostOf(f), ToolchainsOf(f), SourceLockOf(f), LaneOf(f, "candidate"), LaneOf(f, "main"))
  }

  lemma EntriesHaveDistinctKeys(suite: Suite, f: Json)
    ensures DistinctKeys(EntriesOf(suite, f))
  {
    var e := EntriesOf(suite, f);
    assert |e[0].0| == 21 && |e[1].0| == 27 && |e[2].0| == 25 && |e[3].0| == 16;
    assert |e[4].0| == 21 && |e[5].0| == 11 && |e[6].0| == 16;
    assert e[0].0[0] == 'a' && e[4].0[0] == 'c' && e[3].0[0] == 'c' && e[6].0[0] == 'm';
  }

  lemma {:induction false} ObjectKeys(entries: seq<(string, Json)>, key: string)
    requires forall i :: 0 <= i < |entries| ==> entries[i].0 != key
    ensures key !in Object(entries).fields
  {
    if entries != [] {
      ObjectKeys(entries[..|entries| - 1], key);
    }
  }

  lemma NoDigestAmong(suite: Suite, f: Json)
    ensures Without(Object(EntriesOf(suite, f)), "prepared_bundle_sha256") == Object(EntriesOf(suite, f))
  {
    var e, key := EntriesOf(suite, f), "prepared_bundle_sha256";
    assert |key| == 22;
    assert |e[0].0| == 21 && |e[1].0| == 27 && |e[2].0| == 25 && |e[3].0| == 16;
    assert |e[4].0| == 21 && |e[5].0| == 11 && |e[6].0| == 16;
    ObjectKeys(e, key);
    assert Object(e).fields - {key} == Object(e).fields;
  }

  lemma ContractIsOfEntries(suite: Suite, f: Json)
    ensures RequestContract(suite, f) == RequestWith(suite, Null, Object(EntriesOf(suite, f)))
  {
    ContractOf(suite, f);
    NoDigestAmong(suite, f);
  }

  lemma RequestsAgreeIff(suite: Suite, x: Json, y: Json)
    ensures RequestWith(suite, Null, x) == RequestWith(suite, Null, y) <==> x == y
  {
    assert Get(RequestWith(suite, Null, x), "bindings", Null) == x;
    assert Get(RequestWith(suite, Null, y), "bindings", Null) == y;
  }

  /** Two results ask for the same qualification exactly if the seven entries they ask with are equal. */
  lemma ContractsAgreeIff(suite: Suite, f: Json, g: Json)
    ensures RequestContract(suite, f) == RequestContract(suite, g) <==> EntriesOf(suite, f) == EntriesOf(suite, g)
  {
    ContractIsOfEntries(suite, f);
    ContractIsOfEntries(suite, g);
    RequestsAgreeIff(suite, Object(EntriesOf(suite, f)), Object(EntriesOf(suite, g)));
    EntriesHaveDistinctKeys(suite, f);
    ObjectsAgree(EntriesOf(suite, f), EntriesOf(suite, g));
  }

  lemma PartsMove(f: Json, root: string, root': string)
    requires |root| > 0 && |root'| > 0
    ensures var g := Moved(f, root, root');
      && HostOf(g) == Moved(HostOf(f), root, root')
      && ToolchainsOf(g) == Moved(ToolchainsOf(f), root, root')
      && SourceLockOf(g) == Moved(SourceLockOf(f), root, root')
  {
    var provenance := Get(f, "provenance", NOTHING);
    MovedGet(f, "provenance", NOTHING, root, root');
    MovedGet(provenance, "host", NOTHING, root, root');
    MovedGet(provenance, "toolchains", NOTHING, root, root');
    MovedGet(provenance, "source_lock", List([]), root, root');
  }

  lemma LaneMoves(f: Json, lane: string, key: string, root: string, root': string)
    requires |root| > 0 && |root'| > 0
    ensures var there := Get(LaneOf(Moved(f, root, root'), lane), key, Null);
      there == Get(LaneOf(f, lane), key, Null) <==> StaysTree(Get(LaneOf(f, lane), key, Null), root, root')
  {
    var lanes := Get(f, "release_lanes", NOTHING);
    MovedGet(f, "release_lanes", NOTHING, root, root');
    MovedGet(lanes, lane, NOTHING, root, root');
    MovedGet(LaneOf(f, lane), key, Null, root, root');
    TreeStaysIff(Get(LaneOf(f, lane), key, Null), root, root');
  }

  ghost predicate LaneStays(f: Json, lane: string, root: string, root': string)
    requires |root| > 0 && |root'| > 0
  {
    && StaysTree(Get(LaneOf(f, lane), "expected_commit", Null), root, root')
    && StaysTree(Get(LaneOf(f, lane), "nomo_sha256", Null), root, root')
  }

  /** No string of the host, the source lock or the lanes' commits and hashes moves, and what moves in the
      toolchains is not part of their identity. */
  ghost predicate AsksTheSame(suite: Suite, f: Json, root: string, root': string)
    requires |root| > 0 && |root'| > 0
  {
    && StaysTree(HostOf(f), root, root') && StaysTree(SourceLockOf(f), root, root')
    && suite.toolchainIdentity(Moved(ToolchainsOf(f), root, root')) == suite.toolchainIdentity(ToolchainsOf(f))
    && LaneStays(f, "candidate", root, root') && LaneStays(f, "main", root, root')
  }

  ghost predicate SameLane(lane: Json, lane': Json) {
    && Get(lane, "expected_commit", Null) == Get(lane', "expected_commit", Null)
    && Get(lane, "nomo_sha256", Null) == Get(lane', "nomo_sha256", Null)
  }

  lemma BindingEntriesAgreeIff(
    suite: Suite, host: Json, tools: Json, lock: Json, candidate: Json, main: Json,
    host': Json, tools': Json, lock': Json, candidate': Json, main': Json)
    requires Injective(suite.sha)
    ensures var x := BindingEntries(suite, host, tools, lock, candidate, main);
      var y := BindingEntries(suite, host', tools', lock', candidate', main');
      x == y <==>
        && host == host' && lock == lock' && suite.toolchainIdentity(tools) == suite.toolchainIdentity(tools')
        && SameLane(candidate, candidate') && SameLane(main, main')
  {
    var x := BindingEntries(suite, host, tools, lock, candidate, main);
    var y := BindingEntries(suite, host', tools', lock', candidate', main');
    if x == y {
      assert x[0].1 == y[0].1 && x[1].1 == y[1].1 && x[2].1 == y[2].1;
      assert x[3].1 == y[3].1 && x[4].1 == y[4].1 && x[5].1 == y[5].1 && x[6].1 == y[6].1;
    }
  }

  lemma EntriesStayIff(suite: Suite, f: Json, root: string, root': string)
    requires |root| > 0 && |root'| > 0 && Injective(suite.sha)
    ensures EntriesOf(suite, Moved(f, root, root')) == EntriesOf(suite, f) <==> AsksTheSame(suite, f, root, root')
  {
    PartsMove(f, root, root');
    TreeStaysIff(HostOf(f), root, root');
    TreeStaysIff(SourceLockOf(f), root, root');
    LaneMoves(f, "candidate", "expected_commit", root, root');
    LaneMoves(f, "candidate", "nomo_sha256", root, root');
    LaneMoves(f, "main", "expected_commit", root, root');
    LaneMoves(f, "main", "nomo_sha256", root, root');
    var g := Moved(f, root, root');
    BindingEntriesAgreeIff(
      suite, HostOf(g), ToolchainsOf(g), SourceLockOf(g), LaneOf(g, "candidate"), LaneOf(g, "main"),
      HostOf(f), ToolchainsOf(f), SourceLockOf(f), LaneOf(f, "candidate"), LaneOf(f, "main"));
  }

  // ----- Loading -----

  lemma DigestInputsAgree(
    suite: Suite, x: Json, root: string, y: Json, root': string, files: Json, preparedAt: string)
    requires |root| > 0 && |root'| > 0 && HasProvenance(x) && HasProvenance(y)
    requires DigestInput(suite, x, root, files, preparedAt) == DigestInput(suite, y, root', files, preparedAt)
    ensures Projection(x, root) == Projection(y, root') && RequestContract(suite, x) == RequestContract(suite, y)
  {
    DigestInputHolds(suite, x, root, files, preparedAt);
    DigestInputHolds(suite, y, root', files, preparedAt);
  }

  /** Digests agree exactly if what they are taken of does. */
  lemma DigestsAgreeIff(
    suite: Suite, x: Json, root: string, y: Json, root': string, files: Json, preparedAt: string)
    requires |root| > 0 && |root'| > 0 && HasProvenance(x) && HasProvenance(y) && Injective(suite.sha)
    ensures BundleDigest(suite, x, root, files, preparedAt) == BundleDigest(suite, y, root', files, preparedAt)
      <==> Projection(x, root) == Projection(y, root') && RequestContract(suite, x) == RequestContract(suite, y)
  {
    if BundleDigest(suite, x, root, files, preparedAt) == BundleDigest(suite, y, root', files, preparedAt) {
      DigestInputsAgree(suite, x, root, y, root', files, preparedAt);
    }
  }

  lemma MovedReverifiesIff(
    suite: Suite, f: Json, digest: string, root: string, root': string, disk: Disk, preparedAt: string)
    requires Writable(suite, f, root, disk, preparedAt) && |root'| > 0 && IsHex(digest)
    ensures var g := Moved(f, root, root');
      Loadable(suite, Written(suite, f, digest, root, disk, preparedAt), root') <==>
        && HasProvenance(g)
        && BundleDigest(suite, g, root', disk.files, preparedAt) == digest
        && Get(g.fields["provenance"], "prepared_bundle_sha256", Null) == Str(digest)
  {
    var d := Written(suite, f, digest, root, disk, preparedAt);
    MetadataEnvelope(suite, digest, preparedAt, disk.files, MapBundlePaths(f, root, true));
    var metadata := Metadata(digest, preparedAt, disk.files, MapBundlePaths(f, root, true));
    assert Canonical(suite, d.metadata) && suite.parse(d.metadata.value) == Some(metadata);
    assert Canonical(suite, d.request);
    ReverifiesIff(suite, metadata, disk.files, root', Moved(f, root, root'), digest, preparedAt);
  }

  lemma ReverifiesIff(
    suite: Suite, metadata: Json, files: Json, root: string, result: Json, digest: string, preparedAt: string)
    requires |root| > 0 && Envelope(suite, metadata)
    requires metadata.fields["bundle_sha256"] == Str(digest) && metadata.fields["prepared_at_utc"] == Str(preparedAt)
    requires result == MapBundlePaths(metadata.fields["prepared_result"], root, false)
    ensures Reverifies(suite, metadata, files, root) <==>
      && HasProvenance(result)
      && BundleDigest(suite, result, root, files, preparedAt) == digest
      && Get(result.fields["provenance"], "prepared_bundle_sha256", Null) == Str(digest)
  {
  }

  lemma DigestStaysIff(f: Json, digest: string, root: string, root': string)
    requires |root| > 0 && |root'| > 0 && HasProvenance(f)
    requires Get(f.fields["provenance"], "prepared_bundle_sha256", Null) == Str(digest)
    ensures var g := Moved(f, root, root');
      && HasProvenance(g)
      && (Get(g.fields["provenance"], "prepared_bundle_sha256", Null) == Str(digest) <==> Stays(digest, root, root'))
  {
    MovedInProvenance(f, "prepared_bundle_sha256", root, root');
    MovedGet(f, "provenance", NOTHING, root, root');
    MovedGet(f.fields["provenance"], "prepared_bundle_sha256", Null, root, root');
    assert Moved(Str(digest), root, root') == Str(Detokenize(Tokenize(digest, root), root'));
  }

  /** Every string of the result, read under the new root, tokenises to what was stored; the digest does not move,
      and neither does what the qualification is asked for. */
  ghost predicate Movable(suite: Suite, f: Json, digest: string, root: string, root': string)
    requires |root| > 0 && |root'| > 0 && HasProvenance(f)
  {
    && SettlesTree(Unsealed(f), root, root')
    && AsksTheSame(suite, f, root, root')
    && Stays(digest, root, root')
  }

  lemma MovedLoadsIff(
    suite: Suite, f: Json, digest: string, root: string, root': string, disk: Disk, preparedAt: string)
    requires Writable(suite, f, root, disk, preparedAt) && |root'| > 0 && Injective(suite.sha)
    requires digest == BundleDigest(suite, f, root, disk.files, preparedAt)
    requires Get(f.fields["provenance"], "prepared_bundle_sha256", Null) == Str(digest)
    ensures Loadable(suite, Written(suite, f, digest, root, disk, preparedAt), root')
      <==> Movable(suite, f, digest, root, root')
  {
    var g := Moved(f, root, root');
    MovedReverifiesIff(suite, f, digest, root, root', disk, preparedAt);
    ProjectionSettlesIff(f, root, root');
    DigestsAgreeIff(suite, g, root', f, root, disk.files, preparedAt);
    ContractsAgreeIff(suite, g, f);
    EntriesStayIff(suite, f, root, root');
    DigestStaysIff(f, digest, root, root');
  }

  /** A bundle written under one root loads under another, byte for byte unchanged, if and only if its strings allow
      it. */
  lemma MovedBundleLoadsIff(
    suite: Suite, result: Json, root: string, root': string, disk: Disk, preparedAt: string)
    requires Writable(suite, result, root, disk, preparedAt) && |root'| > 0 && Injective(suite.sha)
    ensures var f := Finished(suite, result, root, disk, preparedAt);
      var digest := FinishedDigest(suite, result, root, disk, preparedAt);
      && HasProvenance(f)
      && (Loadable(suite, Written(suite, f, digest, root, disk, preparedAt), root')
          <==> Movable(suite, f, digest, root, root'))
  {
    var f := Finished(suite, result, root, disk, preparedAt);
    var digest := FinishedDigest(suite, result, root, disk, preparedAt);
    SealedDigest(suite, Placed(result, root), root, disk.files, preparedAt, digest);
    MovedLoadsIff(suite, f, digest, root, root', disk, preparedAt);
  }
}
