/** The on-disk query cache. The disk is a map from path to file; writes and removals may fail, files may be
    evicted or damaged, and distinct keys may even share a path. */
module PersistentCaches {
  import opened Wrappers
  import opened Ordering
  import opened Queries
  import opened Fingerprints
  import opened HexCodec
  import opened CachePruning

  const PERSISTENT_CACHE_SCHEMA_VERSION := 1

  /** `Malformed` is a file that does not parse as an entry. */
  datatype CacheFile =
    | Entry(schema: nat, key: QueryKey, valueSha256: string, valueHex: string, writtenAt: nat)
    | Malformed

  datatype StoredFile = StoredFile(content: CacheFile, modified: nat, length: nat)

  type Files = map<string, StoredFile>

  /** Where entries go and how values become bytes. */
  datatype Store<!V> = Store(
    entryPath: QueryKey -> string,
    sha256: Bytes -> string,
    write: V -> Bytes,
    read: Bytes -> Option<V>)

  ghost predicate RoundTrips<V(!new)>(store: Store<V>) {
    forall v: V :: store.read(store.write(v)) == Some(v)
  }

  function EntryFor<V>(store: Store<V>, key: QueryKey, value: V, now: nat): CacheFile {
    var bytes := store.write(value);
    Entry(PERSISTENT_CACHE_SCHEMA_VERSION, key, store.sha256(bytes), Digits(bytes), now)
  }

  /** The value a file yields for `key` once schema, key, hex text, checksum and value have all been checked. */
  function Accepted<V>(store: Store<V>, content: CacheFile, key: QueryKey): Option<V> {
    match content
    case Malformed => None
    case Entry(schema, owner, valueSha256, valueHex, _) =>
      if schema != PERSISTENT_CACHE_SCHEMA_VERSION || owner != key then None
      else match DecodeHex(valueHex)
        case None => None
        case Some(bytes) => if store.sha256(bytes) != valueSha256 then None else store.read(bytes)
  }

  /** The file is an entry of the current schema, stored under this very key; its hex text decodes to `bytes`, whose
      checksum is the one stored with them, and they hold `value`. */
  ghost predicate HoldsValue<V>(store: Store<V>, content: CacheFile, key: QueryKey, bytes: Bytes, value: V) {
    && content.Entry? && content.schema == 1 && content.key == key
    && DecodeHex(content.valueHex) == Some(bytes)
    && store.sha256(bytes) == content.valueSha256
    && store.read(bytes) == Some(value)
  }

  lemma AcceptedIff<V>(store: Store<V>, content: CacheFile, key: QueryKey, value: V)
    ensures Accepted(store, content, key) == Some(value)
      <==> exists bytes :: HoldsValue(store, content, key, bytes, value)
  {
    if Accepted(store, content, key) == Some(value) {
      var bytes := DecodeHex(content.valueHex).value;
      assert HoldsValue(store, content, key, bytes, value);
    }
  }

  function Fetched<V>(store: Store<V>, files: Files, key: QueryKey): Option<V> {
    var path := store.entryPath(key);
    if path in files then Accepted(store, files[path].content, key) else None
  }

  /** A lookup removes a file it rejects, if the removal succeeds. */
  function AfterGet<V>(store: Store<V>, files: Files, key: QueryKey, removable: bool): Files {
    var path := store.entryPath(key);
    if path in files && Accepted(store, files[path].content, key).None? && removable then files - {path} else files
  }

  /** How the write of the temporary file and its rename ended. `Lost`: the old file was removed to make
      room and the second rename failed. */
  datatype WriteOutcome = Written | Untouched | Lost

  function AfterWrite<V>(
    store: Store<V>, files: Files, key: QueryKey, value: V, outcome: WriteOutcome, now: nat, length: nat): Files
  {
    var path := store.entryPath(key);
    match outcome
    case Written => files[path := StoredFile(EntryFor(store, key, value, now), now, length)]
    case Untouched => files
    case Lost => files - {path}
  }

  lemma FreshEntryIsAccepted<V(!new)>(store: Store<V>, key: QueryKey, value: V, now: nat)
    requires RoundTrips(store)
    ensures Accepted(store, EntryFor(store, key, value, now), key) == Some(value)
  {
    DecodeUndoesEncode(store.write(value));
  }

  /** What was written is read back. */
  lemma GetAfterInsert<V(!new)>(store: Store<V>, files: Files, key: QueryKey, value: V, now: nat, length: nat)
    requires RoundTrips(store)
    ensures Fetched(store, AfterWrite(store, files, key, value, Written, now, length), key) == Some(value)
  {
    FreshEntryIsAccepted(store, key, value, now);
  }

  // ----- The directory as a listing -----

  function InfoOf(files: Files, path: string): CacheFileInfo
    requires path in files
  {
    CacheFileInfo(files[path].modified, path, files[path].length)
  }

  /** Every file is listed once, with its time and length. */
  ghost predicate Lists(listing: seq<CacheFileInfo>, files: Files) {
    && (forall i :: 0 <= i < |listing| ==> listing[i].path in files && listing[i] == InfoOf(files, listing[i].path))
    && (forall i, j :: 0 <= i < j < |listing| ==> listing[i].path != listing[j].path)
    && (forall path :: path in files ==> InfoOf(files, path) in listing)
  }

  ghost function PathsOf(listing: seq<CacheFileInfo>): set<string> {
    set f | f in listing :: f.path
  }

  ghost function SomePath(files: Files): string
    requires files != map[]
    ensures SomePath(files) in files
  {
    var path :| path in files;
    path
  }

  /** The bytes on disk. */
  ghost function BytesOn(files: Files): nat
    decreases |files|
  {
    if files == map[] then 0 else files[SomePath(files)].length + BytesOn(files - {SomePath(files)})
  }

  function Omitting(listing: seq<CacheFileInfo>, i: nat): (r: seq<CacheFileInfo>)
    requires i < |listing|
    ensures |r| == |listing| - 1
  {
    listing[..i] + listing[i + 1..]
  }

  /** Where the `k`-th entry was before the `i`-th was left out. */
  function Origin(i: nat, k: nat): nat {
    if k < i then k else k + 1
  }

  lemma OmittingAt(listing: seq<CacheFileInfo>, i: nat, k: nat)
    requires i < |listing| && k < |listing| - 1
    ensures Omitting(listing, i)[k] == listing[Origin(i, k)]
  {
  }

  lemma StillListed(listing: seq<CacheFileInfo>, i: nat, j: nat)
    requires i < |listing| && j < |listing| && i != j
    ensures listing[j] in Omitting(listing, i)
  {
    assert Omitting(listing, i)[if j < i then j else j - 1] == listing[j];
  }

  lemma ListedElsewhere(listing: seq<CacheFileInfo>, files: Files, i: nat, path: string, rest: seq<CacheFileInfo>)
    requires Lists(listing, files) && i < |listing| && rest == Omitting(listing, i) && path == listing[i].path
    ensures Lists(rest, files - {path})
  {
    forall k | 0 <= k < |rest|
      ensures rest[k].path in files - {path} && rest[k] == InfoOf(files - {path}, rest[k].path)
      ensures forall l :: k < l < |rest| ==> rest[k].path != rest[l].path
    {
      OmittingAt(listing, i, k);
      forall l | k < l < |rest|
        ensures rest[k].path != rest[l].path
      {
        OmittingAt(listing, i, l);
      }
    }
    forall other | other in files - {path}
      ensures InfoOf(files - {path}, other) in rest
    {
      var j :| 0 <= j < |listing| && listing[j] == InfoOf(files, other);
      StillListed(listing, i, j);
    }
  }

  lemma {:induction false} SumWithout(listing: seq<CacheFileInfo>, i: nat)
    requires i < |listing|
    ensures SumLengths(listing) == listing[i].length + SumLengths(Omitting(listing, i))
  {
    if i == 0 {
      assert Omitting(listing, 0) == listing[1..];
    } else {
      SumWithout(listing[1..], i - 1);
      assert Omitting(listing, i)[1..] == Omitting(listing[1..], i - 1);
    }
  }

  lemma ListedOrNot(listing: seq<CacheFileInfo>, files: Files)
    requires Lists(listing, files)
    ensures listing == [] <==> files == map[]
  {
    if listing != [] {
      assert listing[0].path in files;
    } else {
      assert files.Keys == {};
    }
  }

  lemma WithoutOne(listing: seq<CacheFileInfo>, files: Files, path: string) returns (rest: seq<CacheFileInfo>)
    requires Lists(listing, files) && path in files
    ensures Lists(rest, files - {path}) && SumLengths(listing) == files[path].length + SumLengths(rest)
  {
    var i :| 0 <= i < |listing| && listing[i] == InfoOf(files, path);
    rest := Omitting(listing, i);
    ListedElsewhere(listing, files, i, path, rest);
    SumWithout(listing, i);
  }

  /** Every listing of the disk adds up to the bytes on it. */
  lemma {:induction false} ListingAddsUp(listing: seq<CacheFileInfo>, files: Files)
    requires Lists(listing, files)
    ensures SumLengths(listing) == BytesOn(files)
    decreases |files|
  {
    ListedOrNot(listing, files);
    if files != map[] {
      var path := SomePath(files);
      var rest := WithoutOne(listing, files, path);
      ListingAddsUp(rest, files - {path});
    }
  }

  /** The disk `after` is the disk `before` without what pruning some listing of it evicts. */
  ghost predicate PrunedTo(before: Files, maxBytes: nat, stuck: set<string>, after: Files, removed: nat) {
    exists listing, evicted, kept, total ::
      && Lists(listing, before) && Pruned(listing, maxBytes, stuck, evicted, kept, total)
      && Pruning(evicted, kept, total) == PruningOf(listing, maxBytes, stuck)
      && after == before - PathsOf(evicted) && Lists(kept, after) && removed == |evicted|
  }

  /** Every file that went was written before every file that stayed and could have gone, or at the same time and
      under a name that comes before. */
  ghost predicate OlderWent(before: Files, stuck: set<string>, after: Files) {
    forall gone, left :: gone in before.Keys - after.Keys && left in before.Keys * after.Keys - stuck ==>
      WrittenFirst(before, gone, left)
  }

  ghost predicate WrittenFirst(files: Files, one: string, other: string)
    requires one in files && other in files
  {
    && files[one].modified <= files[other].modified
    && (files[one].modified == files[other].modified ==> StringLeq(one, other))
  }

  /** The `removed` oldest files of the disk went: removing them fits the capacity and removing fewer does not. */
  ghost predicate OldestEvicted(before: Files, maxBytes: nat, after: Files, removed: nat) {
    exists order ::
      && Lists(order, before) && InAgeOrder(order)
      && ShortestPrefix(order, maxBytes, removed) && after == before - PathsOf(order[..removed])
  }

  lemma InListing(listing: seq<CacheFileInfo>, evicted: seq<CacheFileInfo>, kept: seq<CacheFileInfo>, f: CacheFileInfo)
    requires multiset(evicted) + multiset(kept) == multiset(listing)
    ensures f in listing <==> f in evicted || f in kept
  {
    assert f in listing <==> f in multiset(listing);
    assert f in evicted <==> f in multiset(evicted);
    assert f in kept <==> f in multiset(kept);
  }

  lemma {:induction false} ListedOnce(listing: seq<CacheFileInfo>, f: CacheFileInfo)
    requires forall i, j :: 0 <= i < j < |listing| ==> listing[i].path != listing[j].path
    ensures multiset(listing)[f] <= 1
  {
    if listing != [] {
      var n := |listing| - 1;
      ListedOnce(listing[..n], f);
      assert listing == listing[..n] + [listing[n]];
      if listing[n] == f {
        assert f !in listing[..n];
        assert f !in multiset(listing[..n]);
      }
    }
  }

  lemma OccursTwice(s: seq<CacheFileInfo>, i: nat, j: nat)
    requires i < j < |s| && s[i] == s[j]
    ensures multiset(s)[s[i]] >= 2
  {
    assert s == s[..i] + [s[i]] + s[i + 1..j] + [s[j]] + s[j + 1..];
  }

  /** No path that is evicted is kept, and none is kept twice. */
  lemma KeptAreApart(
    listing: seq<CacheFileInfo>, files: Files, evicted: seq<CacheFileInfo>, kept: seq<CacheFileInfo>, i: nat)
    requires Lists(listing, files) && multiset(evicted) + multiset(kept) == multiset(listing) && i < |kept|
    ensures kept[i] in listing && kept[i].path !in PathsOf(evicted)
    ensures forall j :: i < j < |kept| ==> kept[i].path != kept[j].path
  {
    InListing(listing, evicted, kept, kept[i]);
    ListedOnce(listing, kept[i]);
    assert multiset(kept)[kept[i]] >= 1 by {
      assert kept[i] in multiset(kept);
    }
    forall f | f in evicted
      ensures f.path != kept[i].path
    {
      InListing(listing, evicted, kept, f);
      assert f in multiset(evicted);
      assert f == kept[i] ==> multiset(listing)[f] >= 2;
    }
    forall j | i < j < |kept|
      ensures kept[i].path != kept[j].path
    {
      InListing(listing, evicted, kept, kept[j]);
      if kept[i] == kept[j] {
        OccursTwice(kept, i, j);
      }
    }
  }

  /** What pruning keeps of a listing lists what is left on the disk. */
  lemma KeptIsListed(
    listing: seq<CacheFileInfo>, files: Files, evicted: seq<CacheFileInfo>, kept: seq<CacheFileInfo>)
    requires Lists(listing, files) && multiset(evicted) + multiset(kept) == multiset(listing)
    ensures Lists(kept, files - PathsOf(evicted)) && PathsOf(evicted) <= files.Keys
  {
    forall i | 0 <= i < |kept|
      ensures kept[i] in listing && kept[i].path !in PathsOf(evicted)
      ensures forall j :: i < j < |kept| ==> kept[i].path != kept[j].path
    {
      KeptAreApart(listing, files, evicted, kept, i);
    }
    forall path | path in files && path !in PathsOf(evicted)
      ensures InfoOf(files, path) in kept
    {
      InListing(listing, evicted, kept, InfoOf(files, path));
    }
    forall f | f in evicted
      ensures f.path in files
    {
      InListing(listing, evicted, kept, f);
    }
  }

  lemma KeptFits(kept: seq<CacheFileInfo>, after: Files, maxBytes: nat, stuck: set<string>, total: nat)
    requires Lists(kept, after) && SumLengths(kept) == total
    requires total <= maxBytes || forall f :: f in kept ==> f.path in stuck
    ensures BytesOn(after) <= maxBytes || after.Keys <= stuck
  {
    ListingAddsUp(kept, after);
    if total > maxBytes {
      forall path | path in after
        ensures path in stuck
      {
        assert InfoOf(after, path) in kept;
      }
    }
  }

  /** Below 2^64 bytes, what is left fits the capacity, or nothing that is left can be removed. */
  lemma PrunedDiskFits(before: Files, maxBytes: nat, stuck: set<string>, after: Files, removed: nat)
    requires PrunedTo(before, maxBytes, stuck, after, removed) && BytesOn(before) <= U64_MAX
    ensures BytesOn(after) <= maxBytes || after.Keys <= stuck
  {
    var listing, evicted, kept, total :|
      && Lists(listing, before) && Pruned(listing, maxBytes, stuck, evicted, kept, total)
      && Pruning(evicted, kept, total) == PruningOf(listing, maxBytes, stuck)
      && after == before - PathsOf(evicted) && Lists(kept, after) && removed == |evicted|;
    ListingAddsUp(listing, before);
    KeptFits(kept, after, maxBytes, stuck, total);
  }

  lemma SortedListing(listing: seq<CacheFileInfo>, files: Files)
    requires Lists(listing, files)
    ensures Lists(Sort(OlderOrSame, listing), files) && Sorted(OlderOrSame, Sort(OlderOrSame, listing))
    ensures InAgeOrder(Sort(OlderOrSame, listing))
  {
    var order := Sort(OlderOrSame, listing);
    assert multiset([]) + multiset(order) == multiset(listing);
    KeptIsListed(listing, files, [], order);
    assert files - PathsOf([]) == files;
    OlderIsTotalPreorder();
    SortIsSorted(OlderOrSame, listing);
    SortedByAge(listing);
  }

  lemma AgesOnDisk(listing: seq<CacheFileInfo>, before: Files, evicted: seq<CacheFileInfo>, kept: seq<CacheFileInfo>,
    stuck: set<string>, gone: string, left: string)
    requires Lists(listing, before) && multiset(evicted) + multiset(kept) == multiset(listing)
    requires AgesRespected(evicted, kept, stuck)
    requires gone in before && gone in PathsOf(evicted)
    requires left in before && left !in PathsOf(evicted) && left !in stuck
    ensures WrittenFirst(before, gone, left)
  {
    var f :| f in evicted && f.path == gone;
    InListing(listing, evicted, kept, f);
    InListing(listing, evicted, kept, InfoOf(before, left));
    assert InfoOf(before, left) in listing && f == InfoOf(before, gone);
  }

  /** Pruning never lets a file go and keeps an older one that could have gone. */
  lemma PruneKeepsYounger(before: Files, maxBytes: nat, stuck: set<string>, after: Files, removed: nat)
    requires PrunedTo(before, maxBytes, stuck, after, removed)
    ensures OlderWent(before, stuck, after)
  {
    var listing, evicted, kept, total :|
      && Lists(listing, before) && Pruned(listing, maxBytes, stuck, evicted, kept, total)
      && Pruning(evicted, kept, total) == PruningOf(listing, maxBytes, stuck)
      && after == before - PathsOf(evicted) && Lists(kept, after) && removed == |evicted|;
    forall gone, left | gone in before.Keys - after.Keys && left in before.Keys * after.Keys - stuck
      ensures WrittenFirst(before, gone, left)
    {
      AgesOnDisk(listing, before, evicted, kept, stuck, gone, left);
    }
  }

  /** When every file can be removed and the disk holds less than 2^64 bytes, exactly the oldest files go, and as
      few of them as will do. */
  lemma FreePruneEvictsOldest(before: Files, maxBytes: nat, after: Files, removed: nat)
    requires PrunedTo(before, maxBytes, {}, after, removed) && BytesOn(before) <= U64_MAX
    ensures OldestEvicted(before, maxBytes, after, removed)
  {
    var listing, evicted, kept, total :|
      && Lists(listing, before) && Pruned(listing, maxBytes, {}, evicted, kept, total)
      && Pruning(evicted, kept, total) == PruningOf(listing, maxBytes, {})
      && after == before - PathsOf(evicted) && Lists(kept, after) && removed == |evicted|;
    var order := Sort(OlderOrSame, listing);
    ListingAddsUp(listing, before);
    SortKeepsSum(listing);
    SortedListing(listing, before);
    FreeScanning(order, maxBytes);
    assert evicted == order[..removed];
  }

  lemma ListingsAgree(one: seq<CacheFileInfo>, other: seq<CacheFileInfo>, files: Files)
    requires Lists(one, files) && Lists(other, files)
    ensures multiset(one) == multiset(other)
  {
    forall f: CacheFileInfo
      ensures multiset(one)[f] == multiset(other)[f]
    {
      ListedOnce(one, f);
      ListedOnce(other, f);
      assert f in one <==> f in multiset(one);
      assert f in other <==> f in multiset(other);
    }
  }

  lemma ListingSeparates(listing: seq<CacheFileInfo>, files: Files)
    requires Lists(listing, files)
    ensures Separates(OlderOrSame, listing)
  {
    forall i, j | 0 <= i < |listing| && 0 <= j < |listing|
      && OlderOrSame(listing[i], listing[j]) && OlderOrSame(listing[j], listing[i])
      ensures listing[i] == listing[j]
    {
      StringLeqAntisymmetric(listing[i].path, listing[j].path);
    }
  }

  lemma ListingsSortAlike(one: seq<CacheFileInfo>, other: seq<CacheFileInfo>, files: Files)
    requires Lists(one, files) && Lists(other, files)
    ensures Sort(OlderOrSame, one) == Sort(OlderOrSame, other)
  {
    var s, t := Sort(OlderOrSame, one), Sort(OlderOrSame, other);
    ListingsAgree(one, other, files);
    SortedListing(one, files);
    SortedListing(other, files);
    OlderIsTotalPreorder();
    ListingSeparates(s, files);
    SortedArrangementIsUnique(OlderOrSame, s, t);
  }

  /** What pruning leaves does not depend on the order in which the directory is read. */
  lemma PruningIsDetermined(
    before: Files, maxBytes: nat, stuck: set<string>, after: Files, removed: nat, after': Files, removed': nat)
    requires PrunedTo(before, maxBytes, stuck, after, removed)
    requires PrunedTo(before, maxBytes, stuck, after', removed')
    ensures after == after' && removed == removed'
  {
    var one, evicted, kept, total :|
      && Lists(one, before) && Pruned(one, maxBytes, stuck, evicted, kept, total)
      && Pruning(evicted, kept, total) == PruningOf(one, maxBytes, stuck)
      && after == before - PathsOf(evicted) && Lists(kept, after) && removed == |evicted|;
    var other, evicted', kept', total' :|
      && Lists(other, before) && Pruned(other, maxBytes, stuck, evicted', kept', total')
      && Pruning(evicted', kept', total') == PruningOf(other, maxBytes, stuck)
      && after' == before - PathsOf(evicted') && Lists(kept', after') && removed' == |evicted'|;
    ListingsSortAlike(one, other, before);
    ListingAddsUp(one, before);
    ListingAddsUp(other, before);
  }

  /** A disk with exactly these files. */
  function DiskOf(listing: seq<CacheFileInfo>): Files {
    if listing == [] then map[]
    else DiskOf(listing[1..])[listing[0].path := StoredFile(Malformed, listing[0].modified, listing[0].length)]
  }

  lemma {:induction false} DiskIsListed(listing: seq<CacheFileInfo>)
    requires forall i, j :: 0 <= i < j < |listing| ==> listing[i].path != listing[j].path
    ensures Lists(listing, DiskOf(listing))
  {
    if listing != [] {
      var rest := listing[1..];
      DiskIsListed(rest);
      forall i | 0 <= i < |listing|
        ensures listing[i].path in DiskOf(listing) && listing[i] == InfoOf(DiskOf(listing), listing[i].path)
      {
        assert i > 0 ==> listing[i] == rest[i - 1];
      }
      forall path | path in DiskOf(listing)
        ensures InfoOf(DiskOf(listing), path) in listing
      {
        assert path != listing[0].path ==> InfoOf(DiskOf(rest), path) in rest;
      }
    }
  }

  lemma PrunedListing(listing: seq<CacheFileInfo>, files: Files, maxBytes: nat, stuck: set<string>, r: Pruning)
    requires Lists(listing, files) && r == PruningOf(listing, maxBytes, stuck)
    requires Pruned(listing, maxBytes, stuck, r.evicted, r.kept, r.total)
    ensures var after := files - PathsOf(r.evicted);
      PrunedTo(files, maxBytes, stuck, after, |r.evicted|) && BytesOn(after) == SumLengths(r.kept)
  {
    KeptIsListed(listing, files, r.evicted, r.kept);
    ListingAddsUp(r.kept, files - PathsOf(r.evicted));
  }

  /** There is a disk of three of the largest files from which pruning to a capacity of one of them and a byte
      removes one file only. */
  lemma SaturatedDiskOverflows()
    ensures var before := DiskOf([LargeFile(0), LargeFile(1), LargeFile(2)]);
      var after := before - PathsOf([LargeFile(0)]);
      && PrunedTo(before, LARGEST_FILE + 1, {}, after, 1)
      && BytesOn(after) == 2 * LARGEST_FILE > LARGEST_FILE + 1
  {
    var listing := [LargeFile(0), LargeFile(1), LargeFile(2)];
    var r := PruningOf(listing, LARGEST_FILE + 1, {});
    SaturationUndercounts();
    SaturatedIsPruned();
    DiskIsListed(listing);
    PrunedListing(listing, DiskOf(listing), LARGEST_FILE + 1, {}, r);
  }

  class PersistentQueryCache<!V> {
    const store: Store<V>
    const maxBytes: nat
    var files: Files
    var hits: nat
    var misses: nat
    var writes: nat
    var corruptions: nat
    var evictions: nat

    constructor (store: Store<V>, maxBytes: nat, files: Files)
      ensures this.store == store && this.maxBytes == maxBytes && this.files == files
      ensures hits == misses == writes == corruptions == evictions == 0
    {
      this.store, this.maxBytes, this.files := store, maxBytes, files;
      hits, misses, writes, corruptions, evictions := 0, 0, 0, 0, 0;
    }

    method Get(key: QueryKey, removable: bool) returns (answer: Option<V>)
      modifies this`files, this`hits, this`misses, this`corruptions
      ensures answer == Fetched(store, old(files), key)
      ensures files == AfterGet(store, old(files), key, removable)
      ensures hits == old(hits) + (if answer.Some? then 1 else 0)
      ensures misses == old(misses) + (if answer.Some? then 0 else 1)
      ensures corruptions == old(corruptions)
        + (if answer.None? && store.entryPath(key) in old(files) then 1 else 0)
    {
      var path := store.entryPath(key);
      if path !in files {
        misses := misses + 1;
        return None;
      }
      answer := Accepted(store, files[path].content, key);
      if answer.Some? {
        hits := hits + 1;
      } else {
        misses := misses + 1;
        corruptions := corruptions + 1;
        if removable {
          files := files - {path};
        }
      }
    }

    /** `walkable`: the cache directory can be walked when the cache is pruned. */
    method Insert(
      key: QueryKey, value: V, outcome: WriteOutcome, now: nat, length: nat, walkable: bool, stuck: set<string>)
      returns (ok: bool, ghost gone: set<string>)
      modifies this`files, this`writes, this`evictions
      ensures ok == (outcome == Written && walkable)
      ensures files == AfterWrite(store, old(files), key, value, outcome, now, length) - gone
      ensures writes == old(writes) + (if outcome == Written then 1 else 0)
      ensures !ok ==> gone == {} && evictions == old(evictions)
      ensures ok ==> evictions >= old(evictions) && PrunedTo(
        AfterWrite(store, old(files), key, value, Written, now, length), maxBytes, stuck, files,
        evictions - old(evictions))
    {
      var bytes := store.write(value);
      var text := EncodeHex(bytes);
      var entry := Entry(PERSISTENT_CACHE_SCHEMA_VERSION, key, store.sha256(bytes), text, now);
      var path := store.entryPath(key);
      ok, gone := false, {};
      match outcome {
        case Written =>
          files := files[path := StoredFile(entry, now, length)];
          writes := writes + 1;
          var removed, pruned := PruneFiles(walkable, stuck);
          ok, gone := removed.Some?, pruned;
        case Untouched =>
        case Lost =>
          files := files - {path};
      }
    }

    /** Directory order is left open. */
    method List() returns (listing: seq<CacheFileInfo>)
      ensures Lists(listing, files)
    {
      listing := [];
      var todo := files.Keys;
      while todo != {}
        invariant todo <= files.Keys
        invariant forall i :: 0 <= i < |listing| ==>
          listing[i].path in files.Keys - todo && listing[i] == InfoOf(files, listing[i].path)
        invariant forall i, j :: 0 <= i < j < |listing| ==> listing[i].path != listing[j].path
        invariant forall path :: path in files.Keys - todo ==> InfoOf(files, path) in listing
        decreases |todo|
      {
        var path :| path in todo;
        listing := listing + [InfoOf(files, path)];
        todo := todo - {path};
      }
    }

    /** Nothing is removed, and the result is an error, if the directory cannot be walked. */
    method PruneFiles(walkable: bool, stuck: set<string>) returns (removed: Option<nat>, ghost gone: set<string>)
      modifies this`files, this`evictions
      ensures removed.Some? == walkable && (removed.None? ==> gone == {} && evictions == old(evictions))
      ensures gone <= old(files).Keys && gone !! stuck && files == old(files) - gone
      ensures removed.Some? ==>
        PrunedTo(old(files), maxBytes, stuck, files, removed.value) && evictions == old(evictions) + removed.value
      ensures OlderWent(old(files), stuck, files)
      ensures removed.Some? && BytesOn(old(files)) <= U64_MAX ==>
        && (BytesOn(files) <= maxBytes || files.Keys <= stuck)
        && (stuck == {} ==> OldestEvicted(old(files), maxBytes, files, removed.value))
    {
      if !walkable {
        assert files.Keys - files.Keys == {};
        return None, {};
      }
      var listing := List();
      var evicted, kept, count, _ := Prune(listing, maxBytes, stuck);
      var paths := set f | f in evicted :: f.path;
      KeptIsListed(listing, files, evicted, kept);
      files := files - paths;
      gone := paths;
      removed := Some(count);
      evictions := evictions + count;
      assert PrunedTo(old(files), maxBytes, stuck, files, count);
      PruneKeepsYounger(old(files), maxBytes, stuck, files, count);
      if BytesOn(old(files)) <= U64_MAX {
        PrunedDiskFits(old(files), maxBytes, stuck, files, count);
        if stuck == {} {
          FreePruneEvictsOldest(old(files), maxBytes, files, count);
        }
      }
    }
  }

  // ----- Runs -----

  datatype Event<V> =
    | Get(key: QueryKey, removable: bool)
    | Insert(key: QueryKey, value: V, outcome: WriteOutcome, now: nat, length: nat)
    | Evict(gone: set<string>)
    | Damage(path: string, file: StoredFile)

  /** Damage leaves a file that fails some check under every key. */
  ghost predicate Legal<V(!new)>(store: Store<V>, event: Event<V>) {
    event.Damage? ==> forall k :: Accepted(store, event.file.content, k).None?
  }

  function AfterEvent<V>(store: Store<V>, files: Files, event: Event<V>): Files {
    match event
    case Get(key, removable) => AfterGet(store, files, key, removable)
    case Insert(key, value, outcome, now, length) => AfterWrite(store, files, key, value, outcome, now, length)
    case Evict(gone) => files - gone
    case Damage(path, file) => files[path := file]
  }

  function AfterEvents<V>(store: Store<V>, start: Files, events: seq<Event<V>>): Files {
    if events == [] then start
    else AfterEvent(store, AfterEvents(store, start, events[..|events| - 1]), events[|events| - 1])
  }

  /** The value most recently written under exactly `key`. */
  function LastInserted<V>(events: seq<Event<V>>, key: QueryKey): Option<V> {
    if events == [] then None
    else
      var event := events[|events| - 1];
      if event.Insert? && event.outcome == Written && event.key == key then Some(event.value)
      else LastInserted(events[..|events| - 1], key)
  }

  /** Whatever a file would yield for a key lies where the key's entries go and was written last. */
  ghost predicate Backed<V(!new)>(store: Store<V>, files: Files, events: seq<Event<V>>) {
    forall path, key :: path in files && Accepted(store, files[path].content, key).Some? ==>
      && path == store.entryPath(key)
      && Accepted(store, files[path].content, key) == LastInserted(events, key)
  }

  lemma WriteKeepsBacked<V(!new)>(
    store: Store<V>, files: Files, events: seq<Event<V>>, key: QueryKey, value: V, now: nat, length: nat)
    requires RoundTrips(store) && Backed(store, files, events)
    ensures Backed(store, AfterWrite(store, files, key, value, Written, now, length),
                   events + [Insert(key, value, Written, now, length)])
  {
    FreshEntryIsAccepted(store, key, value, now);
    var after := events + [Insert(key, value, Written, now, length)];
    assert after[..|after| - 1] == events;
    assert forall k :: LastInserted(after, k) == if k == key then Some(value) else LastInserted(events, k);
  }

  /** Every other event can only take files away or leave one that no key accepts. */
  lemma OtherEventsKeepBacked<V(!new)>(store: Store<V>, files: Files, events: seq<Event<V>>, event: Event<V>)
    requires Backed(store, files, events) && Legal(store, event)
    requires event.Insert? ==> event.outcome != Written
    ensures Backed(store, AfterEvent(store, files, event), events + [event])
  {
    var after := events + [event];
    assert after[..|after| - 1] == events;
    assert forall k :: LastInserted(after, k) == LastInserted(events, k);
  }

  lemma {:induction false} AlwaysBacked<V(!new)>(store: Store<V>, events: seq<Event<V>>)
    requires RoundTrips(store)
    requires forall n :: 0 <= n < |events| ==> Legal(store, events[n])
    ensures Backed(store, AfterEvents(store, map[], events), events)
  {
    if events != [] {
      var before, event := events[..|events| - 1], events[|events| - 1];
      AlwaysBacked(store, before);
      assert events == before + [event];
      var files := AfterEvents(store, map[], before);
      match event {
        case Insert(key, value, Written, now, length) =>
          WriteKeepsBacked(store, files, before, key, value, now, length);
        case _ =>
          OtherEventsKeepBacked(store, files, before, event);
      }
    }
  }

  /** The cache is a lossy map: an answer is the last value inserted under that very key, or nothing. */
  lemma GetIsLossy<V(!new)>(store: Store<V>, events: seq<Event<V>>, key: QueryKey)
    requires RoundTrips(store)
    requires forall n :: 0 <= n < |events| ==> Legal(store, events[n])
    ensures var answer := Fetched(store, AfterEvents(store, map[], events), key);
      answer.None? || answer == LastInserted(events, key)
  {
    AlwaysBacked(store, events);
  }
}
