/** What a qualification without a record says. */
module QualificationMessages {

  const NO_RECORD := "no canonical-host qualification record was supplied"

  lemma PlainTogether(x: string, y: string)
    requires '$' !in x && '$' !in y
    ensures '$' !in x + y
  {
  }

  lemma NoRecordReads()
    ensures NO_RECORD == "no canonical-host " + "qualification record " + "was supplied"
  {
  }

  lemma NoRecordIsPlain()
    ensures '$' !in NO_RECORD
  {
    NoRecordReads();
    PlainTogether("no canonical-host ", "qualification record ");
    PlainTogether("no canonical-host " + "qualification record ", "was supplied");
  }
}

/** Writing a prepared bundle and loading it again. */
module PreparedBundles {
  import opened Wrappers
  import opened BundlePaths
  import opened QualificationMessages

  /** A JSON value; the order of an object's keys does not matter. */
  datatype Json =
    | Null
    | Bool(value: bool)
    | Number(literal: string)
    | Str(text: string)
    | List(items: seq<Json>)
    | Dict(fields: map<string, Json>)

  // ----- Paths anywhere in a tree -----

  /** Every string that is not a key has the root replaced by the token, or the token by the root. */
  function MapBundlePaths(v: Json, root: string, tokenize: bool): Json
    requires |root| > 0
    decreases v
  {
    match v
    case Dict(fields) => Dict(map key | key in fields :: MapBundlePaths(fields[key], root, tokenize))
    case List(items) => List(seq(|items|, i requires 0 <= i < |items| => MapBundlePaths(items[i], root, tokenize)))
    case Str(text) => Str(if tokenize then Tokenize(text, root) else Detokenize(text, root))
    case _ => v
  }

  ghost predicate LegibleTree(v: Json, root: string)
    requires |root| > 0
    decreases v
  {
    match v
    case Dict(fields) => forall key :: key in fields ==> LegibleTree(fields[key], root)
    case List(items) => forall i :: 0 <= i < |items| ==> LegibleTree(items[i], root)
    case Str(text) => Legible(text, root)
    case _ => true
  }

  /** A tree survives exactly if each of its strings does. */
  lemma {:induction false} TreeRoundTripIff(v: Json, root: string)
    requires |root| > 0 && root != TOKEN
    ensures MapBundlePaths(MapBundlePaths(v, root, true), root, false) == v <==> LegibleTree(v, root)
    decreases v
  {
    var there := MapBundlePaths(v, root, true);
    var back := MapBundlePaths(there, root, false);
    match v {
      case Dict(fields) =>
        forall key | key in fields
          ensures key in back.fields && (back.fields[key] == fields[key] <==> LegibleTree(fields[key], root))
        {
          TreeRoundTripIff(fields[key], root);
        }
        if LegibleTree(v, root) {
          assert back.fields == fields;
        }
      case List(items) =>
        forall i | 0 <= i < |items|
          ensures back.items[i] == items[i] <==> LegibleTree(items[i], root)
        {
          TreeRoundTripIff(items[i], root);
        }
        if LegibleTree(v, root) {
          assert back.items == items;
        }
      case Str(text) =>
        DetokenizeUndoesTokenizeIff(text, root);
      case _ =>
    }
  }

  // ----- Access to objects -----

  /** `object.get(key, default)`; a value that is no object has no keys. */
  function Get(v: Json, key: string, default: Json): Json {
    if v.Dict? && key in v.fields then v.fields[key] else default
  }

  function Put(v: Json, key: string, value: Json): Json
    requires v.Dict?
  {
    Dict(v.fields[key := value])
  }

  const NOTHING := Dict(map[])

  /** An object from its entries, later ones last. */
  function Object(entries: seq<(string, Json)>): (r: Json)
    ensures r.Dict?
  {
    if entries == [] then NOTHING
    else Put(Object(entries[..|entries| - 1]), entries[|entries| - 1].0, entries[|entries| - 1].1)
  }

  ghost predicate HasProvenance(result: Json) {
    result.Dict? && "provenance" in result.fields && result.fields["provenance"].Dict?
  }

  function InProvenance(result: Json, key: string, value: Json): Json
    requires HasProvenance(result)
  {
    Put(result, "provenance", Put(result.fields["provenance"], key, value))
  }

  // ----- The digest and the request -----

  /** What is computed outside this model, and constants of the suite. */
  datatype Suite = Suite(
    sha: Json -> string,
    encode: Json -> string,
    parse: string -> Option<Json>,
    toolchainIdentity: Json -> Json,
    isTimestamp: string -> bool,
    inventoryShape: Json -> bool,
    dynamicPolicy: Json,
    requiredChecks: seq<string>)

  predicate IsHex(s: string) {
    |s| == 64 && forall i :: 0 <= i < |s| ==> '0' <= s[i] <= '9' || 'a' <= s[i] <= 'f'
  }

  ghost predicate Sensible(suite: Suite) {
    && (forall v :: IsHex(suite.sha(v)))
    && (forall v :: suite.parse(suite.encode(v)) == Some(v))
  }

  function Strings(texts: seq<string>): Json {
    List(seq(|texts|, i requires 0 <= i < |texts| => Str(texts[i])))
  }

  function BindingEntries(
    suite: Suite, host: Json, toolchains: Json, sourceLock: Json, candidate: Json, main: Json): seq<(string, Json)>
  {
    [
      ("authority_host_sha256", Str(suite.sha(host))),
      ("reference_toolchains_sha256", Str(suite.sha(suite.toolchainIdentity(toolchains)))),
      ("frozen_source_lock_sha256", Str(suite.sha(sourceLock))),
      ("candidate_commit", Get(candidate, "expected_commit", Null)),
      ("candidate_nomo_sha256", Get(candidate, "nomo_sha256", Null)),
      ("main_commit", Get(main, "expected_commit", Null)),
      ("main_nomo_sha256", Get(main, "nomo_sha256", Null))
    ]
  }

  function QualificationBindings(
    suite: Suite, host: Json, toolchains: Json, sourceLock: Json, releaseLanes: Json, digest: Json): Json
  {
    var candidate, main := Get(releaseLanes, "candidate", NOTHING), Get(releaseLanes, "main", NOTHING);
    var bindings := Object(BindingEntries(suite, host, toolchains, sourceLock, candidate, main));
    if digest == Null then bindings else Put(bindings, "prepared_bundle_sha256", digest)
  }

  const BINDING_KEYS: seq<string> := [
    "authority_host_sha256", "candidate_commit", "candidate_nomo_sha256", "frozen_source_lock_sha256",
    "main_commit", "main_nomo_sha256", "prepared_bundle_sha256", "reference_toolchains_sha256"]

  /** The qualification of a result that comes without a record: nothing is qualified, every binding mismatches. */
  function UnqualifiedEntries(suite: Suite, bindings: Json): seq<(string, Json)> {
    [
      ("kind", Str("canonical-host-static-authorization-v1")),
      ("status", Str("ineligible")),
      ("eligible", Bool(false)),
      ("policy", Str("fail-closed")),
      ("qualification_path", Null),
      ("qualification_sha256", Null),
      ("checks", NOTHING),
      ("missing_or_unqualified", Strings(suite.requiredChecks)),
      ("provided_bindings", Null),
      ("expected_bindings", bindings),
      ("binding_mismatches", Strings(BINDING_KEYS)),
      ("dynamic_policy", suite.dynamicPolicy),
      ("reason", Str(NO_RECORD))
    ]
  }

  function Unqualified(suite: Suite, bindings: Json): Json {
    Object(UnqualifiedEntries(suite, bindings))
  }

  function BindingsOf(suite: Suite, result: Json, digest: Json): Json {
    var provenance := Get(result, "provenance", NOTHING);
    QualificationBindings(
      suite, Get(provenance, "host", NOTHING), Get(provenance, "toolchains", NOTHING),
      Get(provenance, "source_lock", List([])), Get(result, "release_lanes", NOTHING), digest)
  }

  function RequestRest(suite: Suite): Json {
    Dict(map[
      "schema" := Number("1"),
      "kind" := Str("benchmarksgame-v2-qualification-request"),
      "dynamic_policy" := suite.dynamicPolicy,
      "required_checks" := Strings(suite.requiredChecks)])
  }

  function RequestWith(suite: Suite, digest: Json, bindings: Json): Json {
    Put(Put(RequestRest(suite), "bundle_sha256", digest), "bindings", bindings)
  }

  function QualificationRequest(suite: Suite, result: Json): Json {
    var digest := Get(Get(result, "provenance", NOTHING), "prepared_bundle_sha256", Null);
    RequestWith(suite, digest, BindingsOf(suite, result, digest))
  }

  /** The request without the digest. */
  function RequestContract(suite: Suite, result: Json): Json {
    var request := QualificationRequest(suite, result);
    var bindings := Get(request, "bindings", NOTHING);
    Put(Put(request, "bundle_sha256", Null), "bindings", Without(bindings, "prepared_bundle_sha256"))
  }

  function Without(v: Json, key: string): Json {
    if v.Dict? then Dict(v.fields - {key}) else v
  }

  /** The result without the digest and the qualification that is bound to it. */
  function Projection(result: Json, root: string): Json
    requires HasProvenance(result) && |root| > 0
  {
    MapBundlePaths(
      InProvenance(InProvenance(result, "prepared_bundle_sha256", Null), "environment_qualification", Null),
      root, true)
  }

  function DigestInput(suite: Suite, result: Json, root: string, inventory: Json, preparedAt: string): Json
    requires HasProvenance(result) && |root| > 0
  {
    Put(Put(Put(
      Dict(map["schema" := Number("1"), "qualification_request_contract" := RequestContract(suite, result)]),
      "prepared_at_utc", Str(preparedAt)),
      "prepared_result", Projection(result, root)),
      "files", inventory)
  }

  function BundleDigest(suite: Suite, result: Json, root: string, inventory: Json, preparedAt: string): string
    requires HasProvenance(result) && |root| > 0
  {
    suite.sha(DigestInput(suite, result, root, inventory, preparedAt))
  }

  lemma BindingsForgetDigest(
    suite: Suite, host: Json, toolchains: Json, sourceLock: Json, releaseLanes: Json, digest: Json)
    ensures var key := "prepared_bundle_sha256";
      Without(QualificationBindings(suite, host, toolchains, sourceLock, releaseLanes, digest), key)
      == Without(QualificationBindings(suite, host, toolchains, sourceLock, releaseLanes, Null), key)
  {
    var bare := QualificationBindings(suite, host, toolchains, sourceLock, releaseLanes, Null);
    var fields, key := bare.fields, "prepared_bundle_sha256";
    assert fields[key := digest] - {key} == fields - {key};
  }

  lemma PutOver(v: Json, first: string, a: Json, second: string, b: Json, a': Json, b': Json)
    requires v.Dict? && first != second
    ensures Put(Put(Put(Put(v, first, a), second, b), first, a'), second, b') == Put(Put(v, first, a'), second, b')
  {
    assert v.fields[first := a][second := b][first := a'][second := b'] == v.fields[first := a'][second := b'];
  }

  lemma RequestForgetsDigest(suite: Suite, digest: Json, bindings: Json, replacement: Json)
    ensures Put(Put(RequestWith(suite, digest, bindings), "bundle_sha256", Null), "bindings", replacement)
         == RequestWith(suite, Null, replacement)
  {
    PutOver(RequestRest(suite), "bundle_sha256", digest, "bindings", bindings, Null, replacement);
  }

  /** The contract, from what it depends on. */
  lemma ContractOf(suite: Suite, result: Json)
    ensures RequestContract(suite, result)
         == RequestWith(suite, Null, Without(BindingsOf(suite, result, Null), "prepared_bundle_sha256"))
  {
    var digest := Get(Get(result, "provenance", NOTHING), "prepared_bundle_sha256", Null);
    var provenance := Get(result, "provenance", NOTHING);
    BindingsForgetDigest(
      suite, Get(provenance, "host", NOTHING), Get(provenance, "toolchains", NOTHING),
      Get(provenance, "source_lock", List([])), Get(result, "release_lanes", NOTHING), digest);
    var bindings := BindingsOf(suite, result, digest);
    RequestForgetsDigest(suite, digest, bindings, Without(bindings, "prepared_bundle_sha256"));
    assert Get(RequestWith(suite, digest, bindings), "bindings", NOTHING) == bindings;
  }

  lemma ContractIgnoresDigest(suite: Suite, result: Json, key: string, value: Json)
    requires HasProvenance(result) && key in {"prepared_bundle_sha256", "environment_qualification"}
    ensures RequestContract(suite, InProvenance(result, key, value)) == RequestContract(suite, result)
  {
    var changed := InProvenance(result, key, value);
    ContractOf(suite, result);
    ContractOf(suite, changed);
    assert BindingsOf(suite, changed, Null) == BindingsOf(suite, result, Null);
  }

  lemma ProjectionIgnoresDigest(result: Json, root: string, key: string, value: Json)
    requires HasProvenance(result) && |root| > 0
    requires key in {"prepared_bundle_sha256", "environment_qualification"}
    ensures Projection(InProvenance(result, key, value), root) == Projection(result, root)
  {
    var changed := InProvenance(result, key, value);
    var before := InProvenance(InProvenance(result, "prepared_bundle_sha256", Null), "environment_qualification", Null);
    var after := InProvenance(InProvenance(changed, "prepared_bundle_sha256", Null), "environment_qualification", Null);
    assert after.fields["provenance"].fields == before.fields["provenance"].fields;
    assert after.fields == before.fields;
  }

  /** What is stored after the digest was taken does not change it. */
  lemma DigestIgnoresItself(
    suite: Suite, result: Json, root: string, inventory: Json, preparedAt: string, digest: Json, qualification: Json)
    requires HasProvenance(result) && |root| > 0
    ensures var stored :=
        InProvenance(
          InProvenance(result, "prepared_bundle_sha256", digest), "environment_qualification", qualification);
      BundleDigest(suite, stored, root, inventory, preparedAt)
      == BundleDigest(suite, result, root, inventory, preparedAt)
  {
    var once := InProvenance(result, "prepared_bundle_sha256", digest);
    ContractIgnoresDigest(suite, result, "prepared_bundle_sha256", digest);
    ContractIgnoresDigest(suite, once, "environment_qualification", qualification);
    ProjectionIgnoresDigest(result, root, "prepared_bundle_sha256", digest);
    ProjectionIgnoresDigest(once, root, "environment_qualification", qualification);
  }

  // ----- Writing -----

  /** The bundle directory: its two JSON files, and the inventory of everything else in it. */
  datatype Disk = Disk(metadata: Option<string>, request: Option<string>, files: Json)

  const METADATA_FILE := "/prepared-bundle.json"
  const REQUEST_FILE := "/qualification-request.json"

  /** The result once it knows where it is stored. */
  function Placed(result: Json, root: string): Json
    requires HasProvenance(result)
  {
    Put(InProvenance(
      InProvenance(result, "prepared_bundle_path", Str(root + METADATA_FILE)),
      "qualification_request_path", Str(root + REQUEST_FILE)), "status", Str("prepared"))
  }

  /** The result once it carries its digest and the qualification bound to it. */
  function Sealed(suite: Suite, placed: Json, digest: string): Json
    requires HasProvenance(placed)
  {
    var carrying := InProvenance(placed, "prepared_bundle_sha256", Str(digest));
    InProvenance(carrying, "environment_qualification", Unqualified(suite, BindingsOf(suite, carrying, Str(digest))))
  }

  function Metadata(digest: string, preparedAt: string, files: Json, tokenized: Json): Json {
    Dict(map[
      "schema" := Number("1"),
      "bundle_sha256" := Str(digest),
      "prepared_at_utc" := Str(preparedAt),
      "files" := files,
      "prepared_result" := tokenized])
  }

  const METADATA_KEYS := {"schema", "bundle_sha256", "prepared_at_utc", "files", "prepared_result"}

  method WritePreparedBundle(suite: Suite, result: Json, root: string, disk: Disk, preparedAt: string)
    returns (finished: Json, disk': Disk)
    requires HasProvenance(result) && |root| > 0
    ensures var digest := BundleDigest(suite, Placed(result, root), root, disk.files, preparedAt);
      && finished == Sealed(suite, Placed(result, root), digest)
      && disk' == Disk(
        Some(suite.encode(Metadata(digest, preparedAt, disk.files, MapBundlePaths(finished, root, true)))),
        Some(suite.encode(QualificationRequest(suite, finished))),
        disk.files)
  {
    finished := InProvenance(result, "prepared_bundle_path", Str(root + METADATA_FILE));
    finished := InProvenance(finished, "qualification_request_path", Str(root + REQUEST_FILE));
    finished := Put(finished, "status", Str("prepared"));
    var digest := BundleDigest(suite, finished, root, disk.files, preparedAt);
    finished := InProvenance(finished, "prepared_bundle_sha256", Str(digest));
    var bindings := BindingsOf(suite, finished, Str(digest));
    finished := InProvenance(finished, "environment_qualification", Unqualified(suite, bindings));
    var metadata := Metadata(digest, preparedAt, disk.files, MapBundlePaths(finished, root, true));
    disk' := disk.(
      metadata := Some(suite.encode(metadata)), request := Some(suite.encode(QualificationRequest(suite, finished))));
  }

  // ----- Loading -----

  /** A file that is there, parses to an object, and is written the canonical way. */
  predicate Canonical(suite: Suite, file: Option<string>) {
    && file.Some?
    && suite.parse(file.value).Some?
    && suite.parse(file.value).value.Dict?
    && suite.encode(suite.parse(file.value).value) == file.value
  }

  predicate Envelope(suite: Suite, metadata: Json) {
    && metadata.Dict?
    && metadata.fields.Keys == METADATA_KEYS
    && metadata.fields["schema"] == Number("1")
    && metadata.fields["bundle_sha256"].Str? && IsHex(metadata.fields["bundle_sha256"].text)
    && metadata.fields["files"].List?
    && metadata.fields["prepared_result"].Dict?
    && metadata.fields["prepared_at_utc"].Str? && suite.isTimestamp(metadata.fields["prepared_at_utc"].text)
    && suite.inventoryShape(metadata.fields["files"])
  }

  /** The digest recomputed from the loaded result and the files as they are now is the one stored, twice. */
  ghost predicate Reverifies(suite: Suite, metadata: Json, files: Json, root: string)
    requires |root| > 0 && Envelope(suite, metadata)
  {
    var result := MapBundlePaths(metadata.fields["prepared_result"], root, false);
    && HasProvenance(result)
    && var digest := Str(BundleDigest(suite, result, root, files, metadata.fields["prepared_at_utc"].text));
    && metadata.fields["bundle_sha256"] == digest
    && Get(result.fields["provenance"], "prepared_bundle_sha256", Null) == digest
  }

  ghost predicate Loadable(suite: Suite, disk: Disk, root: string)
    requires |root| > 0
  {
    && Canonical(suite, disk.metadata)
    && var metadata := suite.parse(disk.metadata.value).value;
    && Envelope(suite, metadata)
    && metadata.fields["files"] == disk.files
    && Reverifies(suite, metadata, disk.files, root)
    && Canonical(suite, disk.request)
  }

  method LoadPreparedBundle(suite: Suite, disk: Disk, root: string) returns (result: Result<Json, string>)
    requires |root| > 0
    ensures result.Ok? <==> Loadable(suite, disk, root)
    ensures result.Ok? ==>
      result.value == MapBundlePaths(suite.parse(disk.metadata.value).value.fields["prepared_result"], root, false)
  {
    if disk.metadata.None? {
      return Err("prepared bundle metadata is missing");
    }
    if !Canonical(suite, disk.metadata) {
      return Err("prepared bundle metadata is not canonical byte-for-byte JSON");
    }
    var metadata := suite.parse(disk.metadata.value).value;
    if !Envelope(suite, metadata) {
      return Err("prepared bundle metadata envelope changed");
    }
    if metadata.fields["files"] != disk.files {
      return Err("prepared bundle files were added, removed, or changed");
    }
    var loaded := MapBundlePaths(metadata.fields["prepared_result"], root, false);
    if !(loaded.Dict? && "provenance" in loaded.fields && loaded.fields["provenance"].Dict?) {
      return Err("prepared bundle result has no provenance");
    }
    var recomputed := Str(BundleDigest(suite, loaded, root, disk.files, metadata.fields["prepared_at_utc"].text));
    if metadata.fields["bundle_sha256"] != recomputed
      || Get(loaded.fields["provenance"], "prepared_bundle_sha256", Null) != recomputed {
      return Err("prepared bundle digest is invalid");
    }
    if !Canonical(suite, disk.request) {
      return Err("prepared qualification request is not canonical byte-for-byte JSON");
    }
    result := Ok(loaded);
  }
}
