/** What is written for a result that comes without a qualification record. */
module UnqualifiedResults {
  import opened PreparedBundles
  import opened BundleRoundTrip
  import opened MovedBundles
  import opened QualificationMessages

  /** A lane's commit and digest, as the bindings name them. */
  ghost predicate NamesLane(bindings: Json, lane: string, value: Json) {
    && Get(bindings, lane + "_commit", Null) == Get(value, "expected_commit", Null)
    && Get(bindings, lane + "_nomo_sha256", Null) == Get(value, "nomo_sha256", Null)
  }

  /** Every binding is read from where it belongs, each lane's from its own lane. */
  ghost predicate Binds(suite: Suite, bindings: Json, f: Json, digest: string) {
    && Get(bindings, "authority_host_sha256", Null) == Str(suite.sha(HostOf(f)))
    && Get(bindings, "reference_toolchains_sha256", Null)
      == Str(suite.sha(suite.toolchainIdentity(ToolchainsOf(f))))
    && Get(bindings, "frozen_source_lock_sha256", Null) == Str(suite.sha(SourceLockOf(f)))
    && NamesLane(bindings, "candidate", LaneOf(f, "candidate"))
    && NamesLane(bindings, "main", LaneOf(f, "main"))
    && Get(bindings, "prepared_bundle_sha256", Null) == Str(digest)
  }

  lemma {:induction false} KeysOfObject(entries: seq<(string, Json)>, key: string)
    ensures key in Object(entries).fields <==> exists i :: 0 <= i < |entries| && entries[i].0 == key
  {
    if entries != [] {
      var n := |entries| - 1;
      KeysOfObject(entries[..n], key);
      if key in Object(entries[..n]).fields {
        var i :| 0 <= i < n && entries[..n][i].0 == key;
        assert entries[i].0 == key;
      }
      if i :| 0 <= i < |entries| && entries[i].0 == key {
        assert i < n ==> entries[..n][i].0 == key;
      }
    }
  }

  lemma PutKeeps(v: Json, key: string, value: Json, other: string)
    requires v.Dict? && other != key
    ensures Get(Put(v, key, value), other, Null) == Get(v, other, Null)
  {
  }

  lemma EntriesHold(suite: Suite, f: Json)
    ensures var v := Object(EntriesOf(suite, f));
      && Get(v, "authority_host_sha256", Null) == Str(suite.sha(HostOf(f)))
      && Get(v, "reference_toolchains_sha256", Null) == Str(suite.sha(suite.toolchainIdentity(ToolchainsOf(f))))
      && Get(v, "frozen_source_lock_sha256", Null) == Str(suite.sha(SourceLockOf(f)))
      && Get(v, "candidate_commit", Null) == Get(LaneOf(f, "candidate"), "expected_commit", Null)
      && Get(v, "candidate_nomo_sha256", Null) == Get(LaneOf(f, "candidate"), "nomo_sha256", Null)
      && Get(v, "main_commit", Null) == Get(LaneOf(f, "main"), "expected_commit", Null)
      && Get(v, "main_nomo_sha256", Null) == Get(LaneOf(f, "main"), "nomo_sha256", Null)
  {
    var e := EntriesOf(suite, f);
    EntriesHaveDistinctKeys(suite, f);
    ObjectHolds(e, 0);
    ObjectHolds(e, 1);
    ObjectHolds(e, 2);
    ObjectHolds(e, 3);
    ObjectHolds(e, 4);
    ObjectHolds(e, 5);
    ObjectHolds(e, 6);
  }

  lemma LaneKeys()
    ensures "candidate" + "_commit" == "candidate_commit" && "candidate" + "_nomo_sha256" == "candidate_nomo_sha256"
    ensures "main" + "_commit" == "main_commit" && "main" + "_nomo_sha256" == "main_nomo_sha256"
  {
  }

  /** The bindings of a result are read from its own parts. */
  lemma BindingsAreRead(suite: Suite, f: Json, digest: string)
    ensures Binds(suite, BindingsOf(suite, f, Str(digest)), f, digest)
  {
    var v, last := Object(EntriesOf(suite, f)), "prepared_bundle_sha256";
    assert |last| == 22 && last[0] == 'p';
    EntriesHold(suite, f);
    LaneKeys();
    assert BindingsOf(suite, f, Str(digest)) == Put(v, last, Str(digest));
    PutKeeps(v, last, Str(digest), "authority_host_sha256");
    PutKeeps(v, last, Str(digest), "reference_toolchains_sha256");
    PutKeeps(v, last, Str(digest), "frozen_source_lock_sha256");
    PutKeeps(v, last, Str(digest), "candidate_commit");
    PutKeeps(v, last, Str(digest), "candidate_nomo_sha256");
    PutKeeps(v, last, Str(digest), "main_commit");
    PutKeeps(v, last, Str(digest), "main_nomo_sha256");
  }

  // ----- The qualification -----

  /** Nothing is qualified: every check is missing, and what the record would have to say is not said. */
  ghost predicate SaysUnqualified(suite: Suite, q: Json, bindings: Json) {
    && Get(q, "eligible", Null) == Bool(false)
    && Get(q, "status", Null) == Str("ineligible")
    && Get(q, "reason", Null) == Str(NO_RECORD)
    && Get(q, "missing_or_unqualified", Null) == Strings(suite.requiredChecks)
    && Get(q, "provided_bindings", Null) == Null
    && Get(q, "expected_bindings", Null) == bindings
    && Get(q, "binding_mismatches", Null) == Strings(BINDING_KEYS)
  }

  lemma UnqualifiedKeysAreDistinct(suite: Suite, bindings: Json)
    ensures DistinctKeys(UnqualifiedEntries(suite, bindings))
  {
    var e := UnqualifiedEntries(suite, bindings);
    assert |e[0].0| == 4 && |e[1].0| == 6 && |e[2].0| == 8 && |e[3].0| == 6 && |e[4].0| == 18;
    assert |e[5].0| == 20 && |e[6].0| == 6 && |e[7].0| == 22 && |e[8].0| == 17 && |e[9].0| == 17;
    assert |e[10].0| == 18 && |e[11].0| == 14 && |e[12].0| == 6;
    assert e[1].0[0] == 's' && e[3].0[0] == 'p' && e[6].0[0] == 'c' && e[12].0[0] == 'r';
    assert e[4].0[0] == 'q' && e[10].0[0] == 'b' && e[8].0[0] == 'p' && e[9].0[0] == 'e';
  }

  lemma UnqualifiedSays(suite: Suite, bindings: Json)
    ensures SaysUnqualified(suite, Unqualified(suite, bindings), bindings)
  {
    var e := UnqualifiedEntries(suite, bindings);
    UnqualifiedKeysAreDistinct(suite, bindings);
    ObjectHolds(e, 1);
    ObjectHolds(e, 2);
    ObjectHolds(e, 7);
    ObjectHolds(e, 8);
    ObjectHolds(e, 9);
    ObjectHolds(e, 10);
    ObjectHolds(e, 12);
  }

  /** The mismatches named are exactly the bindings expected. */
  lemma EveryBindingMismatches(suite: Suite, f: Json, digest: string, key: string)
    ensures key in BindingsOf(suite, f, Str(digest)).fields <==> key in BINDING_KEYS
  {
    var e := EntriesOf(suite, f);
    KeysOfObject(e, key);
    assert key in BindingsOf(suite, f, Str(digest)).fields
      <==> key in Object(e).fields || key == "prepared_bundle_sha256";
    assert key in BINDING_KEYS <==> key == "prepared_bundle_sha256" || exists i :: 0 <= i < |e| && e[i].0 == key by {
      assert BINDING_KEYS[0] == e[0].0 && BINDING_KEYS[1] == e[3].0 && BINDING_KEYS[2] == e[4].0;
      assert BINDING_KEYS[3] == e[2].0 && BINDING_KEYS[4] == e[5].0 && BINDING_KEYS[5] == e[6].0;
      assert BINDING_KEYS[6] == "prepared_bundle_sha256" && BINDING_KEYS[7] == e[1].0;
    }
  }

  function QualificationOf(f: Json): Json {
    Get(Get(f, "provenance", NOTHING), "environment_qualification", NOTHING)
  }

  /** The result that is written says that nothing is qualified, and names the bindings of its own parts. */
  lemma FinishedIsUnqualified(suite: Suite, result: Json, root: string, disk: Disk, preparedAt: string)
    requires HasProvenance(result) && |root| > 0
    ensures var f, digest := Finished(suite, result, root, disk, preparedAt),
        BundleDigest(suite, Placed(result, root), root, disk.files, preparedAt);
      && SaysUnqualified(suite, QualificationOf(f), BindingsOf(suite, f, Str(digest)))
      && Binds(suite, BindingsOf(suite, f, Str(digest)), result, digest)
  {
    var placed := Placed(result, root);
    var digest := BundleDigest(suite, placed, root, disk.files, preparedAt);
    var carrying := InProvenance(placed, "prepared_bundle_sha256", Str(digest));
    var f := Finished(suite, result, root, disk, preparedAt);
    UnqualifiedSays(suite, BindingsOf(suite, carrying, Str(digest)));
    PartsAreKept(suite, result, root, Str(digest), QualificationOf(f));
    BindingsAreRead(suite, result, digest);
  }

  lemma BindingsKeep(suite: Suite, result: Json, key: string, value: Json, digest: Json)
    requires HasProvenance(result) && key !in {"host", "toolchains", "source_lock"}
    ensures BindingsOf(suite, InProvenance(result, key, value), digest) == BindingsOf(suite, result, digest)
  {
    assert |"release_lanes"| == 13 && |"provenance"| == 10;
  }

  lemma StatusIsNoPart(suite: Suite, result: Json, value: Json, digest: Json)
    requires HasProvenance(result)
    ensures BindingsOf(suite, Put(result, "status", value), digest) == BindingsOf(suite, result, digest)
  {
    assert |"release_lanes"| == 13 && |"provenance"| == 10 && |"status"| == 6;
  }

  lemma SealingKeysAreNoParts()
    ensures "prepared_bundle_path" !in {"host", "toolchains", "source_lock"}
    ensures "qualification_request_path" !in {"host", "toolchains", "source_lock"}
    ensures "prepared_bundle_sha256" !in {"host", "toolchains", "source_lock"}
    ensures "environment_qualification" !in {"host", "toolchains", "source_lock"}
  {
    assert |"host"| == 4 && |"toolchains"| == 10 && |"source_lock"| == 11;
    assert |"prepared_bundle_path"| == 20 && |"qualification_request_path"| == 26;
    assert |"prepared_bundle_sha256"| == 22 && |"environment_qualification"| == 25;
  }

  /** Sealing a result changes none of the parts that its bindings are taken from. */
  lemma PartsAreKept(suite: Suite, result: Json, root: string, digest: Json, qualification: Json)
    requires HasProvenance(result)
    ensures var carrying := InProvenance(Placed(result, root), "prepared_bundle_sha256", digest);
      var f := InProvenance(carrying, "environment_qualification", qualification);
      && BindingsOf(suite, carrying, digest) == BindingsOf(suite, result, digest)
      && BindingsOf(suite, f, digest) == BindingsOf(suite, result, digest)
  {
    var once := InProvenance(result, "prepared_bundle_path", Str(root + METADATA_FILE));
    var twice := InProvenance(once, "qualification_request_path", Str(root + REQUEST_FILE));
    var carrying := InProvenance(Placed(result, root), "prepared_bundle_sha256", digest);
    SealingKeysAreNoParts();
    BindingsKeep(suite, result, "prepared_bundle_path", Str(root + METADATA_FILE), digest);
    BindingsKeep(suite, once, "qualification_request_path", Str(root + REQUEST_FILE), digest);
    StatusIsNoPart(suite, twice, Str("prepared"), digest);
    BindingsKeep(suite, Placed(result, root), "prepared_bundle_sha256", digest, digest);
    BindingsKeep(suite, carrying, "environment_qualification", qualification, digest);
  }

  /** A bundle as it is written is never loaded as eligible, under whatever root. */
  lemma LoadedIsIneligible(suite: Suite, result: Json, root: string, root': string, disk: Disk, preparedAt: string)
    requires HasProvenance(result) && |root| > 0 && |root'| > 0
    ensures var loaded := Moved(Finished(suite, result, root, disk, preparedAt), root, root');
      Get(QualificationOf(loaded), "eligible", Null) == Bool(false)
  {
    var f := Finished(suite, result, root, disk, preparedAt);
    FinishedIsUnqualified(suite, result, root, disk, preparedAt);
    EligibilityStays(f, root, root');
  }

  lemma EligibilityStays(f: Json, root: string, root': string)
    requires |root| > 0 && |root'| > 0 && Get(QualificationOf(f), "eligible", Null) == Bool(false)
    ensures Get(QualificationOf(Moved(f, root, root')), "eligible", Null) == Bool(false)
  {
    FieldMoves(f, "provenance", root, root');
    FieldMoves(Get(f, "provenance", NOTHING), "environment_qualification", root, root');
    FieldMoves(QualificationOf(f), "eligible", root, root');
  }

  lemma FieldMoves(v: Json, key: string, root: string, root': string)
    requires |root| > 0 && |root'| > 0 && v.Dict? && key in v.fields
    ensures Moved(v, root, root').Dict? && key in Moved(v, root, root').fields
    ensures Moved(v, root, root').fields[key] == Moved(v.fields[key], root, root')
  {
  }

  // ----- What else is written -----

  const SEALING_KEYS := {
    "prepared_bundle_path", "qualification_request_path", "prepared_bundle_sha256", "environment_qualification"}

  /** The result says where it is stored and that it is prepared; all else is as it was given. */
  lemma FinishedIsPlaced(suite: Suite, result: Json, root: string, disk: Disk, preparedAt: string, key: string)
    requires HasProvenance(result) && |root| > 0
    ensures var f := Finished(suite, result, root, disk, preparedAt);
      && HasProvenance(f) && Get(f, "status", Null) == Str("prepared")
      && Get(f.fields["provenance"], "prepared_bundle_path", Null) == Str(root + "/prepared-bundle.json")
      && Get(f.fields["provenance"], "qualification_request_path", Null)
        == Str(root + "/qualification-request.json")
      && Get(f.fields["provenance"], "prepared_bundle_sha256", Null)
        == Str(BundleDigest(suite, Placed(result, root), root, disk.files, preparedAt))
      && (key != "status" && key != "provenance" ==> Get(f, key, Null) == Get(result, key, Null))
      && (key !in SEALING_KEYS ==>
        Get(f.fields["provenance"], key, Null) == Get(result.fields["provenance"], key, Null))
  {
    var f := Finished(suite, result, root, disk, preparedAt);
    var digest := BundleDigest(suite, Placed(result, root), root, disk.files, preparedAt);
    var path, request := Str(root + METADATA_FILE), Str(root + REQUEST_FILE);
    FinishedIsPut(suite, result, root, disk, preparedAt);
    SealingKeysAreDistinct();
    FourPuts(
      result.fields["provenance"], "prepared_bundle_path", path, "qualification_request_path", request,
      "prepared_bundle_sha256", Str(digest), "environment_qualification", QualificationOf(f), key);
  }

  lemma SealingKeysAreDistinct()
    ensures "prepared_bundle_path" != "qualification_request_path"
    ensures "prepared_bundle_sha256" !in {"prepared_bundle_path", "qualification_request_path"}
    ensures "environment_qualification"
      !in {"prepared_bundle_path", "qualification_request_path", "prepared_bundle_sha256"}
  {
    assert |"prepared_bundle_path"| == 20 && |"qualification_request_path"| == 26;
    assert |"prepared_bundle_sha256"| == 22 && |"environment_qualification"| == 25;
  }

  /** Sealing is four entries in the provenance and one beside it. */
  lemma FinishedIsPut(suite: Suite, result: Json, root: string, disk: Disk, preparedAt: string)
    requires HasProvenance(result) && |root| > 0
    ensures var f, digest := Finished(suite, result, root, disk, preparedAt),
        BundleDigest(suite, Placed(result, root), root, disk.files, preparedAt);
      && HasProvenance(f)
      && f.fields["provenance"]
        == Put(Put(Put(Put(result.fields["provenance"],
          "prepared_bundle_path", Str(root + METADATA_FILE)),
          "qualification_request_path", Str(root + REQUEST_FILE)),
          "prepared_bundle_sha256", Str(digest)),
          "environment_qualification", QualificationOf(f))
      && Get(f, "status", Null) == Str("prepared")
      && forall key :: key != "status" && key != "provenance" ==> Get(f, key, Null) == Get(result, key, Null)
  {
    PlacedIsPut(result, root);
    SealedIsPut(suite, Placed(result, root), BundleDigest(suite, Placed(result, root), root, disk.files, preparedAt));
    assert |"status"| == 6 && |"provenance"| == 10;
  }

  lemma PlacedIsPut(result: Json, root: string)
    requires HasProvenance(result)
    ensures var p := Placed(result, root);
      && HasProvenance(p)
      && p.fields["provenance"]
        == Put(Put(result.fields["provenance"],
          "prepared_bundle_path", Str(root + METADATA_FILE)),
          "qualification_request_path", Str(root + REQUEST_FILE))
      && Get(p, "status", Null) == Str("prepared")
      && forall key :: key != "status" && key != "provenance" ==> Get(p, key, Null) == Get(result, key, Null)
  {
    assert |"status"| == 6 && |"provenance"| == 10;
  }

  lemma SealedIsPut(suite: Suite, placed: Json, digest: string)
    requires HasProvenance(placed)
    ensures var f := Sealed(suite, placed, digest);
      && HasProvenance(f)
      && f.fields["provenance"]
        == Put(Put(placed.fields["provenance"],
          "prepared_bundle_sha256", Str(digest)),
          "environment_qualification", QualificationOf(f))
      && forall key :: key != "provenance" ==> Get(f, key, Null) == Get(placed, key, Null)
  {
  }

  lemma FourPuts(
    v: Json, a: string, x: Json, b: string, y: Json, c: string, z: Json, d: string, w: Json, key: string)
    requires v.Dict? && a != b && c !in {a, b} && d !in {a, b, c}
    ensures var after := Put(Put(Put(Put(v, a, x), b, y), c, z), d, w);
      && Get(after, a, Null) == x && Get(after, b, Null) == y && Get(after, c, Null) == z
      && (key !in {a, b, c, d} ==> Get(after, key, Null) == Get(v, key, Null))
  {
  }

  /** The request that is written asks for every check, of this bundle, under the bindings of its parts. */
  lemma RequestAsksForTheBundle(suite: Suite, result: Json, root: string, disk: Disk, preparedAt: string)
    requires HasProvenance(result) && |root| > 0
    ensures var f, digest := Finished(suite, result, root, disk, preparedAt),
        BundleDigest(suite, Placed(result, root), root, disk.files, preparedAt);
      var request := QualificationRequest(suite, f);
      && Get(request, "bundle_sha256", Null) == Str(digest)
      && Binds(suite, Get(request, "bindings", Null), result, digest)
      && Get(request, "required_checks", Null) == Strings(suite.requiredChecks)
      && Get(request, "dynamic_policy", Null) == suite.dynamicPolicy
  {
    var f := Finished(suite, result, root, disk, preparedAt);
    var digest := BundleDigest(suite, Placed(result, root), root, disk.files, preparedAt);
    FinishedIsPlaced(suite, result, root, disk, preparedAt, "");
    FinishedIsUnqualified(suite, result, root, disk, preparedAt);
    RequestHolds(suite, Str(digest), BindingsOf(suite, f, Str(digest)));
  }

  lemma RequestHolds(suite: Suite, digest: Json, bindings: Json)
    ensures var request := RequestWith(suite, digest, bindings);
      && Get(request, "bundle_sha256", Null) == digest
      && Get(request, "bindings", Null) == bindings
      && Get(request, "required_checks", Null) == Strings(suite.requiredChecks)
      && Get(request, "dynamic_policy", Null) == suite.dynamicPolicy
  {
    assert |"bundle_sha256"| == 13 && |"bindings"| == 8 && |"required_checks"| == 15 && |"dynamic_policy"| == 14;
    assert |"schema"| == 6 && |"kind"| == 4;
  }
}
