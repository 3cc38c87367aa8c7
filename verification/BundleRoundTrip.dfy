/** What a prepared bundle guarantees: loading undoes writing, and a digest pins what was written. */
module BundleRoundTrip {
  import opened Wrappers
  import opened BundlePaths
  import opened PreparedBundles
  import opened QualificationMessages

  /** The directory after `WritePreparedBundle`. */
  function Written(suite: Suite, finished: Json, digest: string, root: string, disk: Disk, preparedAt: string): Disk
    requires |root| > 0
  {
    Disk(
      Some(suite.encode(Metadata(digest, preparedAt, disk.files, MapBundlePaths(finished, root, true)))),
      Some(suite.encode(QualificationRequest(suite, finished))),
      disk.files)
  }

  /** What writing needs of its caller. */
  ghost predicate Writable(suite: Suite, result: Json, root: string, disk: Disk, preparedAt: string) {
    && Sensible(suite)
    && HasProvenance(result)
    && |root| > 0 && root != TOKEN
    && disk.files.List? && suite.inventoryShape(disk.files) && suite.isTimestamp(preparedAt)
  }

  function Finished(suite: Suite, result: Json, root: string, disk: Disk, preparedAt: string): Json
    requires HasProvenance(result) && |root| > 0
  {
    Sealed(suite, Placed(result, root), BundleDigest(suite, Placed(result, root), root, disk.files, preparedAt))
  }

  function FinishedDigest(suite: Suite, result: Json, root: string, disk: Disk, preparedAt: string): string
    requires HasProvenance(result) && |root| > 0
  {
    BundleDigest(suite, Placed(result, root), root, disk.files, preparedAt)
  }

  lemma MetadataEnvelope(suite: Suite, digest: string, preparedAt: string, files: Json, tokenized: Json)
    requires IsHex(digest) && files.List? && tokenized.Dict?
    requires suite.isTimestamp(preparedAt) && suite.inventoryShape(files)
    ensures var m := Metadata(digest, preparedAt, files, tokenized);
      && Envelope(suite, m)
      && m.fields["files"] == files && m.fields["prepared_result"] == tokenized
      && m.fields["bundle_sha256"] == Str(digest) && m.fields["prepared_at_utc"] == Str(preparedAt)
  {
    assert Metadata(digest, preparedAt, files, tokenized).fields.Keys == METADATA_KEYS;
  }

  lemma GetSealed(placed: Json, digest: Json, qualification: Json)
    requires HasProvenance(placed)
    ensures var f :=
        InProvenance(
          InProvenance(placed, "prepared_bundle_sha256", digest), "environment_qualification", qualification);
      HasProvenance(f) && Get(f.fields["provenance"], "prepared_bundle_sha256", Null) == digest
  {
  }

  lemma SealedDigest(suite: Suite, placed: Json, root: string, files: Json, preparedAt: string, digest: string)
    requires HasProvenance(placed) && |root| > 0
    requires digest == BundleDigest(suite, placed, root, files, preparedAt)
    ensures var f := Sealed(suite, placed, digest);
      && HasProvenance(f)
      && BundleDigest(suite, f, root, files, preparedAt) == digest
      && Get(f.fields["provenance"], "prepared_bundle_sha256", Null) == Str(digest)
  {
    var carrying := InProvenance(placed, "prepared_bundle_sha256", Str(digest));
    var qualification := Unqualified(suite, BindingsOf(suite, carrying, Str(digest)));
    GetSealed(placed, Str(digest), qualification);
    DigestIgnoresItself(suite, placed, root, files, preparedAt, Str(digest), qualification);
  }

  lemma WrittenLoadsIff(suite: Suite, f: Json, digest: string, root: string, disk: Disk, preparedAt: string)
    requires Writable(suite, f, root, disk, preparedAt)
    requires digest == BundleDigest(suite, f, root, disk.files, preparedAt)
    requires Get(f.fields["provenance"], "prepared_bundle_sha256", Null) == Str(digest)
    ensures var d := Written(suite, f, digest, root, disk, preparedAt);
      && d.metadata.Some? && suite.parse(d.metadata.value).Some?
      && var metadata := suite.parse(d.metadata.value).value;
      && Envelope(suite, metadata)
      && ((Loadable(suite, d, root) && MapBundlePaths(metadata.fields["prepared_result"], root, false) == f)
          <==> LegibleTree(f, root))
  {
    var tokenized := MapBundlePaths(f, root, true);
    var metadata := Metadata(digest, preparedAt, disk.files, tokenized);
    MetadataEnvelope(suite, digest, preparedAt, disk.files, tokenized);
    TreeRoundTripIff(f, root);
    if LegibleTree(f, root) {
      assert Reverifies(suite, metadata, disk.files, root);
    }
  }

  /** A bundle just written loads as the result that was written exactly if every string of that result survives
      tokenising. Then its digest reverifies. */
  lemma LoadUndoesWriteIff(suite: Suite, result: Json, root: string, disk: Disk, preparedAt: string)
    requires Writable(suite, result, root, disk, preparedAt)
    ensures var f := Finished(suite, result, root, disk, preparedAt);
      var d := Written(suite, f, FinishedDigest(suite, result, root, disk, preparedAt), root, disk, preparedAt);
      && d.metadata.Some? && suite.parse(d.metadata.value).Some?
      && var metadata := suite.parse(d.metadata.value).value;
      && Envelope(suite, metadata)
      && ((Loadable(suite, d, root) && MapBundlePaths(metadata.fields["prepared_result"], root, false) == f)
          <==> LegibleTree(f, root))
  {
    var digest := FinishedDigest(suite, result, root, disk, preparedAt);
    SealedDigest(suite, Placed(result, root), root, disk.files, preparedAt, digest);
    WrittenLoadsIff(suite, Finished(suite, result, root, disk, preparedAt), digest, root, disk, preparedAt);
  }

  // ----- Results without the token -----

  lemma LegibleText(s: string, root: string)
    requires |root| > 0 && '$' !in s
    ensures Legible(s, root)
  {
    forall i {:trigger s[i..]} | 0 <= i <= |s|
      ensures !(TOKEN <= s[i..])
    {
      if i < |s| {
        assert s[i] in s && s[i..][0] == s[i];
      }
    }
    TokenlessIsLegible(s, root);
  }

  lemma LegibleHex(s: string, root: string)
    requires |root| > 0 && IsHex(s)
    ensures LegibleTree(Str(s), root)
  {
    assert '$' !in s;
    LegibleText(s, root);
  }

  lemma LegiblePath(root: string, file: string)
    requires |root| > 0 && '$' !in file
    ensures LegibleTree(Str(root + file), root)
  {
    var s := root + file;
    assert s[..|root|] == root && s[|root|..] == file;
    LegibleText(file, root);
    LegibleText("", root);
    assert Pieces(s, root) == [""] + Pieces(file, root);
    assert "" in Pieces("", root);
  }

  lemma LegibleGet(v: Json, key: string, default: Json, root: string)
    requires |root| > 0 && LegibleTree(v, root) && LegibleTree(default, root)
    ensures LegibleTree(Get(v, key, default), root)
  {
  }

  lemma LegiblePut(v: Json, key: string, value: Json, root: string)
    requires |root| > 0 && v.Dict? && LegibleTree(v, root) && LegibleTree(value, root)
    ensures LegibleTree(Put(v, key, value), root)
  {
  }

  lemma {:induction false} LegibleObject(entries: seq<(string, Json)>, root: string)
    requires |root| > 0 && LegibleEntries(entries, root)
    ensures LegibleTree(Object(entries), root)
  {
    if entries != [] {
      var n := |entries| - 1;
      LegibleObject(entries[..n], root);
      LegiblePut(Object(entries[..n]), entries[n].0, entries[n].1, root);
    }
  }

  lemma LegibleInProvenance(result: Json, key: string, value: Json, root: string)
    requires |root| > 0 && HasProvenance(result) && LegibleTree(result, root) && LegibleTree(value, root)
    ensures LegibleTree(InProvenance(result, key, value), root)
  {
    LegiblePut(result.fields["provenance"], key, value, root);
    LegiblePut(result, "provenance", Put(result.fields["provenance"], key, value), root);
  }

  ghost predicate LegibleEntries(entries: seq<(string, Json)>, root: string)
    requires |root| > 0
  {
    forall i :: 0 <= i < |entries| ==> LegibleTree(entries[i].1, root)
  }

  lemma LegibleBindingEntries(
    suite: Suite, host: Json, toolchains: Json, sourceLock: Json, candidate: Json, main: Json, root: string)
    requires Sensible(suite) && |root| > 0 && LegibleTree(candidate, root) && LegibleTree(main, root)
    ensures LegibleEntries(BindingEntries(suite, host, toolchains, sourceLock, candidate, main), root)
  {
    LegibleHex(suite.sha(host), root);
    LegibleHex(suite.sha(suite.toolchainIdentity(toolchains)), root);
    LegibleHex(suite.sha(sourceLock), root);
    LegibleGet(candidate, "expected_commit", Null, root);
    LegibleGet(candidate, "nomo_sha256", Null, root);
    LegibleGet(main, "expected_commit", Null, root);
    LegibleGet(main, "nomo_sha256", Null, root);
  }

  lemma LegibleBindings(suite: Suite, result: Json, digest: Json, root: string)
    requires Sensible(suite) && |root| > 0 && LegibleTree(result, root) && LegibleTree(digest, root)
    ensures LegibleTree(BindingsOf(suite, result, digest), root)
  {
    var provenance := Get(result, "provenance", NOTHING);
    var lanes := Get(result, "release_lanes", NOTHING);
    var candidate, main := Get(lanes, "candidate", NOTHING), Get(lanes, "main", NOTHING);
    LegibleGet(result, "release_lanes", NOTHING, root);
    LegibleGet(lanes, "candidate", NOTHING, root);
    LegibleGet(lanes, "main", NOTHING, root);
    var host, toolchains := Get(provenance, "host", NOTHING), Get(provenance, "toolchains", NOTHING);
    var sourceLock := Get(provenance, "source_lock", List([]));
    var entries := BindingEntries(suite, host, toolchains, sourceLock, candidate, main);
    LegibleBindingEntries(suite, host, toolchains, sourceLock, candidate, main, root);
    LegibleObject(entries, root);
    LegiblePut(Object(entries), "prepared_bundle_sha256", digest, root);
  }

  ghost predicate PlainTexts(texts: seq<string>) {
    forall i :: 0 <= i < |texts| ==> '$' !in texts[i]
  }

  lemma LegibleStrings(texts: seq<string>, root: string)
    requires |root| > 0 && PlainTexts(texts)
    ensures LegibleTree(Strings(texts), root)
  {
    forall i | 0 <= i < |texts|
      ensures Legible(texts[i], root)
    {
      LegibleText(texts[i], root);
    }
  }

  lemma LegibleUnqualified(suite: Suite, bindings: Json, root: string)
    requires |root| > 0 && LegibleTree(bindings, root)
    requires LegibleTree(suite.dynamicPolicy, root) && PlainTexts(suite.requiredChecks)
    ensures LegibleTree(Unqualified(suite, bindings), root)
  {
    LegibleStrings(suite.requiredChecks, root);
    BindingKeysArePlain();
    LegibleStrings(BINDING_KEYS, root);
    LegibleText("canonical-host-static-authorization-v1", root);
    LegibleText("ineligible", root);
    LegibleText("fail-closed", root);
    NoRecordIsPlain();
    LegibleText(NO_RECORD, root);
    LegibleObject(UnqualifiedEntries(suite, bindings), root);
  }

  lemma BindingKeysArePlain()
    ensures PlainTexts(BINDING_KEYS)
  {
  }

  /** Whatever the tree, if none of its strings holds a token between occurrences of the root, and none of the
      suite's constants does, the bundle written for it loads as it was written. */
  lemma LoadUndoesWrite(suite: Suite, result: Json, root: string, disk: Disk, preparedAt: string)
    requires Writable(suite, result, root, disk, preparedAt) && LegibleTree(result, root)
    requires LegibleTree(suite.dynamicPolicy, root) && PlainTexts(suite.requiredChecks)
    ensures var f := Finished(suite, result, root, disk, preparedAt);
      var d := Written(suite, f, FinishedDigest(suite, result, root, disk, preparedAt), root, disk, preparedAt);
      && Loadable(suite, d, root)
      && MapBundlePaths(suite.parse(d.metadata.value).value.fields["prepared_result"], root, false) == f
  {
    FinishedIsLegible(suite, result, root, disk, preparedAt);
    LoadUndoesWriteIff(suite, result, root, disk, preparedAt);
  }

  lemma PlacedIsLegible(result: Json, root: string)
    requires HasProvenance(result) && |root| > 0 && LegibleTree(result, root)
    ensures LegibleTree(Placed(result, root), root)
  {
    LegiblePath(root, METADATA_FILE);
    LegiblePath(root, REQUEST_FILE);
    LegibleText("prepared", root);
    var once := InProvenance(result, "prepared_bundle_path", Str(root + METADATA_FILE));
    LegibleInProvenance(result, "prepared_bundle_path", Str(root + METADATA_FILE), root);
    LegibleInProvenance(once, "qualification_request_path", Str(root + REQUEST_FILE), root);
    LegiblePut(
      InProvenance(once, "qualification_request_path", Str(root + REQUEST_FILE)), "status", Str("prepared"), root);
  }

  lemma FinishedIsLegible(suite: Suite, result: Json, root: string, disk: Disk, preparedAt: string)
    requires Writable(suite, result, root, disk, preparedAt) && LegibleTree(result, root)
    requires LegibleTree(suite.dynamicPolicy, root) && PlainTexts(suite.requiredChecks)
    ensures LegibleTree(Finished(suite, result, root, disk, preparedAt), root)
  {
    var placed := Placed(result, root);
    var digest := FinishedDigest(suite, result, root, disk, preparedAt);
    var carrying := InProvenance(placed, "prepared_bundle_sha256", Str(digest));
    PlacedIsLegible(result, root);
    LegibleHex(digest, root);
    LegibleInProvenance(placed, "prepared_bundle_sha256", Str(digest), root);
    LegibleBindings(suite, carrying, Str(digest), root);
    LegibleUnqualified(suite, BindingsOf(suite, carrying, Str(digest)), root);
    LegibleInProvenance(
      carrying, "environment_qualification", Unqualified(suite, BindingsOf(suite, carrying, Str(digest))), root);
  }

  // ----- What a digest pins -----

  ghost predicate Injective(sha: Json -> string) {
    forall x, y :: sha(x) == sha(y) ==> x == y
  }

  function DigestParts(contract: Json, preparedAt: string, projection: Json, files: Json): Json {
    Put(Put(Put(
      Dict(map["schema" := Number("1"), "qualification_request_contract" := contract]),
      "prepared_at_utc", Str(preparedAt)),
      "prepared_result", projection),
      "files", files)
  }

  /** What a digest is taken of can be told from it. */
  lemma PartsAreRecoverable(contract: Json, preparedAt: string, projection: Json, files: Json)
    ensures var input := DigestParts(contract, preparedAt, projection, files);
      && Get(input, "files", Null) == files
      && Get(input, "prepared_at_utc", Null) == Str(preparedAt)
      && Get(input, "prepared_result", Null) == projection
      && Get(input, "qualification_request_contract", Null) == contract
  {
  }

  lemma DigestInputHolds(suite: Suite, x: Json, root: string, files: Json, preparedAt: string)
    requires |root| > 0 && HasProvenance(x)
    ensures var input := DigestInput(suite, x, root, files, preparedAt);
      && Get(input, "files", Null) == files
      && Get(input, "prepared_at_utc", Null) == Str(preparedAt)
      && Get(input, "prepared_result", Null) == Projection(x, root)
      && Get(input, "qualification_request_contract", Null) == RequestContract(suite, x)
  {
    PartsAreRecoverable(RequestContract(suite, x), preparedAt, Projection(x, root), files);
  }

  /** Two bundles that load under the same digest hold the same files, were prepared at the same time, and hold the
      same result but for the digest and the qualification bound to it. */
  lemma DigestPinsBundle(suite: Suite, a: Disk, b: Disk, root: string)
    requires |root| > 0 && Injective(suite.sha) && Loadable(suite, a, root) && Loadable(suite, b, root)
    requires var m, n := suite.parse(a.metadata.value).value, suite.parse(b.metadata.value).value;
      m.fields["bundle_sha256"] == n.fields["bundle_sha256"]
    ensures var m, n := suite.parse(a.metadata.value).value, suite.parse(b.metadata.value).value;
      && a.files == b.files
      && m.fields["prepared_at_utc"] == n.fields["prepared_at_utc"]
      && Projection(MapBundlePaths(m.fields["prepared_result"], root, false), root)
         == Projection(MapBundlePaths(n.fields["prepared_result"], root, false), root)
  {
    var m, n := suite.parse(a.metadata.value).value, suite.parse(b.metadata.value).value;
    var x := MapBundlePaths(m.fields["prepared_result"], root, false);
    var y := MapBundlePaths(n.fields["prepared_result"], root, false);
    InputsAreEqual(
      suite, x, y, root, a.files, b.files, m.fields["prepared_at_utc"].text, n.fields["prepared_at_utc"].text);
  }

  lemma InputsAreEqual(
    suite: Suite, x: Json, y: Json, root: string, files: Json, files': Json, at: string, at': string)
    requires |root| > 0 && HasProvenance(x) && HasProvenance(y) && Injective(suite.sha)
    requires BundleDigest(suite, x, root, files, at) == BundleDigest(suite, y, root, files', at')
    ensures files == files' && at == at' && Projection(x, root) == Projection(y, root)
  {
    assert DigestInput(suite, x, root, files, at) == DigestInput(suite, y, root, files', at');
    DigestInputHolds(suite, x, root, files, at);
    DigestInputHolds(suite, y, root, files', at');
  }
}
