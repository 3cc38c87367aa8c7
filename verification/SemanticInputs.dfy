/** What a semantic query reads, and the fingerprint it is keyed by. */
module SemanticInputs {
  import opened Ordering
  import opened Queries
  import opened Fingerprints
  import opened SourceOverlays

  datatype ReadResult = Contents(bytes: Bytes) | Unreadable(error: string)

  type Disk = string -> ReadResult

  const SESSION_MARK := "nomo-semantic-session-v1"

  /** The bytes hashed for a source; an unreadable file is hashed as a text. */
  function Hashed(h: Hashing, source: ReadResult): Bytes {
    match source
    case Contents(bytes) => bytes
    case Unreadable(error) => h.utf8("missing:" + error)
  }

  function Effective(h: Hashing, overlays: seq<Overlay>, disk: Disk, path: string): ReadResult {
    match Lookup(overlays, path)
    case Some(source) => Contents(h.utf8(source))
    case None => disk(path)
  }

  function OverlaidPaths(overlays: seq<Overlay>): (r: seq<string>)
    ensures forall p :: p in r <==> exists o :: o in overlays && o.path == p
  {
    if overlays == [] then []
    else
      assert overlays == [overlays[0]] + overlays[1..];
      [overlays[0].path] + OverlaidPaths(overlays[1..])
  }

  function Sources(h: Hashing, paths: seq<string>, overlays: seq<Overlay>, disk: Disk): (r: map<string, ReadResult>)
    ensures forall p :: p in r <==> p in paths
    ensures forall p :: p in r ==> r[p] == Effective(h, overlays, disk, p)
  {
    if paths == [] then map[]
    else Sources(h, paths[1..], overlays, disk)[paths[0] := Effective(h, overlays, disk, paths[0])]
  }

  /** The sources a check sees: every collected file and every overlaid path. */
  function View(h: Hashing, files: seq<string>, overlays: seq<Overlay>, disk: Disk): map<string, ReadResult> {
    Sources(h, files + OverlaidPaths(overlays), overlays, disk)
  }

  function HashedView(h: Hashing, view: map<string, ReadResult>): map<string, Bytes> {
    map p | p in view :: Hashed(h, view[p])
  }

  function FilePairs(h: Hashing, files: seq<string>, overlays: seq<Overlay>, disk: Disk): (r: seq<(string, Bytes)>)
    ensures |r| == |files|
    ensures forall n :: 0 <= n < |files| ==> r[n] == (files[n], Hashed(h, Effective(h, overlays, disk, files[n])))
  {
    seq(|files|, n requires 0 <= n < |files| => (files[n], Hashed(h, Effective(h, overlays, disk, files[n]))))
  }

  function OverlayPairs(h: Hashing, overlays: seq<Overlay>): (r: seq<(string, Bytes)>)
    ensures |r| == |overlays|
    ensures forall n :: 0 <= n < |overlays| ==> r[n] == (overlays[n].path, h.utf8(overlays[n].source))
  {
    seq(|overlays|, n requires 0 <= n < |overlays| => (overlays[n].path, h.utf8(overlays[n].source)))
  }

  /** Files first, overlays after, with nothing to mark the boundary; overlaid files appear twice. */
  function Pairs(h: Hashing, files: seq<string>, overlays: seq<Overlay>, disk: Disk): seq<(string, Bytes)> {
    FilePairs(h, files, overlays, disk) + OverlayPairs(h, overlays)
  }

  function Flatten(h: Hashing, pairs: seq<(string, Bytes)>): seq<Bytes> {
    if pairs == [] then [] else [h.utf8(pairs[0].0), pairs[0].1] + Flatten(h, pairs[1..])
  }

  function Parts(h: Hashing, files: seq<string>, overlays: seq<Overlay>, disk: Disk): seq<Bytes> {
    [h.utf8(SESSION_MARK)] + Flatten(h, Pairs(h, files, overlays, disk))
  }

  // ----- Collecting the inputs -----

  function Identity(s: string): string {
    s
  }

  /** Drops an element equal to the one before it. */
  function Dedup(s: seq<string>): (r: seq<string>)
    ensures forall x :: x in r <==> x in s
  {
    if |s| < 2 then s
    else if s[0] == s[1] then
      assert s == [s[0]] + s[1..];
      Dedup(s[1..])
    else
      assert s == [s[0]] + s[1..];
      [s[0]] + Dedup(s[1..])
  }

  lemma {:induction false} FlattenAppend(h: Hashing, pairs: seq<(string, Bytes)>, pair: (string, Bytes))
    ensures Flatten(h, pairs + [pair]) == Flatten(h, pairs) + [h.utf8(pair.0), pair.1]
  {
    if pairs == [] {
      assert pairs + [pair] == [pair];
      assert Flatten(h, [pair][1..]) == [];
    } else {
      assert (pairs + [pair])[1..] == pairs[1..] + [pair];
      FlattenAppend(h, pairs[1..], pair);
    }
  }

  function FileInput(path: string): QueryDependency {
    Input("file:" + path)
  }

  /** Feeds the digest a file's path and its effective source. */
  method AddFile(h: Hashing, builder: FingerprintBuilder, overlays: seq<Overlay>, disk: Disk, path: string)
    requires builder.Valid()
    modifies builder
    ensures builder.Valid()
    ensures builder.parts == old(builder.parts) + [h.utf8(path), Hashed(h, Effective(h, overlays, disk, path))]
  {
    builder.AddBytes(h.utf8(path));
    match Lookup(overlays, path) {
      case Some(source) => builder.AddBytes(h.utf8(source));
      case None =>
        match disk(path) {
          case Contents(contents) => builder.AddBytes(contents);
          case Unreadable(error) => builder.AddBytes(h.utf8("missing:" + error));
        }
    }
  }

  method AddFiles(h: Hashing, builder: FingerprintBuilder, paths: seq<string>, overlays: seq<Overlay>, disk: Disk)
    returns (dependencies: seq<QueryDependency>)
    requires builder.Valid()
    modifies builder
    ensures builder.Valid()
    ensures builder.parts == old(builder.parts) + Flatten(h, FilePairs(h, paths, overlays, disk))
    ensures forall p :: p in paths ==> FileInput(p) in dependencies
  {
    ghost var pairs := FilePairs(h, paths, overlays, disk);
    dependencies := [];
    for n := 0 to |paths|
      invariant builder.Valid()
      invariant builder.parts == old(builder.parts) + Flatten(h, pairs[..n])
      invariant forall i :: 0 <= i < n ==> FileInput(paths[i]) in dependencies
    {
      FlattenAppend(h, pairs[..n], pairs[n]);
      assert pairs[..n + 1] == pairs[..n] + [pairs[n]];
      AddFile(h, builder, overlays, disk, paths[n]);
      dependencies := dependencies + [FileInput(paths[n])];
    }
    assert pairs[..|paths|] == pairs;
  }

  method AddOverlays(h: Hashing, builder: FingerprintBuilder, overlays: seq<Overlay>)
    returns (dependencies: seq<QueryDependency>)
    requires builder.Valid()
    modifies builder
    ensures builder.Valid()
    ensures builder.parts == old(builder.parts) + Flatten(h, OverlayPairs(h, overlays))
    ensures forall o :: o in overlays ==> FileInput(o.path) in dependencies
  {
    ghost var pairs := OverlayPairs(h, overlays);
    dependencies := [];
    for n := 0 to |overlays|
      invariant builder.Valid()
      invariant builder.parts == old(builder.parts) + Flatten(h, pairs[..n])
      invariant forall i :: 0 <= i < n ==> FileInput(overlays[i].path) in dependencies
    {
      FlattenAppend(h, pairs[..n], pairs[n]);
      assert pairs[..n + 1] == pairs[..n] + [pairs[n]];
      builder.AddBytes(h.utf8(overlays[n].path));
      builder.AddBytes(h.utf8(overlays[n].source));
      dependencies := dependencies + [FileInput(overlays[n].path)];
    }
    assert pairs[..|overlays|] == pairs;
  }

  /** The collected paths sorted and without repeats. */
  method SortedPaths(collected: seq<string>) returns (paths: seq<string>)
    ensures forall p :: p in paths <==> p in collected
  {
    var sorted := Sort(ByName(Identity), collected);
    paths := Dedup(sorted);
    forall p
      ensures p in paths <==> p in collected
    {
      SameElements(sorted, collected, p);
    }
  }

  lemma {:induction false} FlattenConcat(h: Hashing, a: seq<(string, Bytes)>, b: seq<(string, Bytes)>)
    ensures Flatten(h, a + b) == Flatten(h, a) + Flatten(h, b)
  {
    if a == [] {
      assert a + b == b;
    } else {
      assert (a + b)[1..] == a[1..] + b;
      FlattenConcat(h, a[1..], b);
    }
  }

  /** The mark, then the files, then the overlays. */
  lemma PartsInOrder(h: Hashing, paths: seq<string>, overrides: seq<Overlay>, disk: Disk)
    ensures Parts(h, paths, overrides, disk)
         == [h.utf8(SESSION_MARK)] + Flatten(h, FilePairs(h, paths, overrides, disk))
          + Flatten(h, OverlayPairs(h, overrides))
  {
    var files, overlaid := FilePairs(h, paths, overrides, disk), OverlayPairs(h, overrides);
    FlattenConcat(h, files, overlaid);
    assert [h.utf8(SESSION_MARK)] + (Flatten(h, files) + Flatten(h, overlaid))
      == [h.utf8(SESSION_MARK)] + Flatten(h, files) + Flatten(h, overlaid);
  }

  method FingerprintInputs(h: Hashing, paths: seq<string>, overrides: seq<Overlay>, disk: Disk)
    returns (fingerprint: string, dependencies: seq<QueryDependency>)
    ensures fingerprint == "sha256:" + h.sha256(Stream(Parts(h, paths, overrides, disk)))
    ensures forall p :: p in paths ==> FileInput(p) in dependencies
    ensures forall o :: o in overrides ==> FileInput(o.path) in dependencies
  {
    var builder := new FingerprintBuilder();
    builder.AddBytes(h.utf8(SESSION_MARK));
    assert builder.parts == [h.utf8(SESSION_MARK)];
    var files := AddFiles(h, builder, paths, overrides, disk);
    var overlaid := AddOverlays(h, builder, overrides);
    PartsInOrder(h, paths, overrides, disk);
    dependencies := files + overlaid;
    fingerprint := builder.Finish(h);
  }

  /** Every source the check can see is fingerprinted and declared as a dependency. `collected` is the
      unsorted result of the directory walks. */
  method CollectSemanticInputs(h: Hashing, collected: seq<string>, sourceOverrides: seq<Overlay>, disk: Disk)
    returns (fingerprint: string, dependencies: seq<QueryDependency>, paths: seq<string>, overrides: seq<Overlay>)
    ensures forall p :: p in paths <==> p in collected
    ensures multiset(overrides) == multiset(sourceOverrides)
    ensures fingerprint == "sha256:" + h.sha256(Stream(Parts(h, paths, overrides, disk)))
    ensures forall p :: p in View(h, paths, overrides, disk) ==> FileInput(p) in dependencies
  {
    paths := SortedPaths(collected);
    overrides := Sort(ByName(PathOf), sourceOverrides);
    fingerprint, dependencies := FingerprintInputs(h, paths, overrides, disk);
    forall p | p in View(h, paths, overrides, disk)
      ensures FileInput(p) in dependencies
    {
      assert p in paths || p in OverlaidPaths(overrides);
    }
  }

  // ----- The fingerprint determines the view -----

  lemma {:induction false} FlattenIsInjective(h: Hashing, a: seq<(string, Bytes)>, b: seq<(string, Bytes)>)
    requires Injective(h.utf8) && Flatten(h, a) == Flatten(h, b)
    ensures a == b
  {
    if a != [] && b != [] {
      var fa, fb := Flatten(h, a), Flatten(h, b);
      assert fa[0] == fb[0] && fa[1] == fb[1];
      assert fa[2..] == Flatten(h, a[1..]) && fb[2..] == Flatten(h, b[1..]);
      FlattenIsInjective(h, a[1..], b[1..]);
      assert a == [a[0]] + a[1..] && b == [b[0]] + b[1..];
    }
  }

  /** The pairs are the graph of the hashed view, although some are listed twice. */
  lemma PairsDescribeView(h: Hashing, files: seq<string>, overlays: seq<Overlay>, disk: Disk, p: string, b: Bytes)
    requires OneSourcePerPath(overlays)
    ensures var hashed := HashedView(h, View(h, files, overlays, disk));
      (p, b) in Pairs(h, files, overlays, disk) <==> p in hashed && hashed[p] == b
  {
    var view := View(h, files, overlays, disk);
    var fp, op := FilePairs(h, files, overlays, disk), OverlayPairs(h, overlays);
    if (p, b) in op {
      var n :| 0 <= n < |overlays| && op[n] == (p, b);
      LookupMeansMember(overlays, p, overlays[n].source);
      assert overlays[n] == Overlay(p, overlays[n].source);
      assert overlays[n] in overlays;
      assert p in view;
    }
    if p in view && Hashed(h, view[p]) == b {
      if p in files {
        var n :| 0 <= n < |files| && files[n] == p;
        assert fp[n] == (p, b);
      } else {
        var o :| o in overlays && o.path == p;
        var n :| 0 <= n < |overlays| && overlays[n] == o;
        LookupMeansMember(overlays, p, o.source);
        assert op[n] == (p, b);
      }
    }
  }

  lemma EqualPairsEqualHashedViews(
    h: Hashing, files1: seq<string>, overlays1: seq<Overlay>, disk1: Disk,
    files2: seq<string>, overlays2: seq<Overlay>, disk2: Disk)
    requires OneSourcePerPath(overlays1) && OneSourcePerPath(overlays2)
    requires Pairs(h, files1, overlays1, disk1) == Pairs(h, files2, overlays2, disk2)
    ensures HashedView(h, View(h, files1, overlays1, disk1)) == HashedView(h, View(h, files2, overlays2, disk2))
  {
    var v1 := HashedView(h, View(h, files1, overlays1, disk1));
    var v2 := HashedView(h, View(h, files2, overlays2, disk2));
    forall p | p in v1
      ensures p in v2 && v2[p] == v1[p]
    {
      PairsDescribeView(h, files1, overlays1, disk1, p, v1[p]);
      PairsDescribeView(h, files2, overlays2, disk2, p, v1[p]);
    }
    forall p | p in v2
      ensures p in v1
    {
      PairsDescribeView(h, files1, overlays1, disk1, p, v2[p]);
      PairsDescribeView(h, files2, overlays2, disk2, p, v2[p]);
    }
  }

  /** Equal streams come from equal hashed views: the unmarked boundary and the double entries hide nothing. */
  lemma EqualStreamsEqualHashedViews(
    h: Hashing, files1: seq<string>, overlays1: seq<Overlay>, disk1: Disk,
    files2: seq<string>, overlays2: seq<Overlay>, disk2: Disk)
    requires Injective(h.utf8) && OneSourcePerPath(overlays1) && OneSourcePerPath(overlays2)
    requires Short(Parts(h, files1, overlays1, disk1)) && Short(Parts(h, files2, overlays2, disk2))
    requires Stream(Parts(h, files1, overlays1, disk1)) == Stream(Parts(h, files2, overlays2, disk2))
    ensures HashedView(h, View(h, files1, overlays1, disk1)) == HashedView(h, View(h, files2, overlays2, disk2))
  {
    var p1, p2 := Parts(h, files1, overlays1, disk1), Parts(h, files2, overlays2, disk2);
    StreamIsInjective(p1, p2);
    assert p1[1..] == Flatten(h, Pairs(h, files1, overlays1, disk1));
    assert p2[1..] == Flatten(h, Pairs(h, files2, overlays2, disk2));
    FlattenIsInjective(h, Pairs(h, files1, overlays1, disk1), Pairs(h, files2, overlays2, disk2));
    EqualPairsEqualHashedViews(h, files1, overlays1, disk1, files2, overlays2, disk2);
  }

  lemma PrefixCancels(a: string, x: string, y: string)
    requires a + x == a + y
    ensures x == y
  {
    assert (a + x)[|a|..] == x && (a + y)[|a|..] == y;
  }

  /** Where both have a source, both or neither could read it. */
  ghost predicate ReadAlike(v: map<string, ReadResult>, w: map<string, ReadResult>) {
    forall p :: p in v && p in w ==> (v[p].Contents? <==> w[p].Contents?)
  }

  /** Views that hash alike are equal exactly when they agree on which sources could be read. */
  lemma HashedViewsDetermineViews(h: Hashing, v: map<string, ReadResult>, w: map<string, ReadResult>)
    requires Injective(h.utf8) && HashedView(h, v) == HashedView(h, w)
    ensures v == w <==> ReadAlike(v, w)
  {
    assert v.Keys == HashedView(h, v).Keys == HashedView(h, w).Keys == w.Keys;
    if ReadAlike(v, w) {
      forall p | p in v
        ensures v[p] == w[p]
      {
        assert Hashed(h, v[p]) == HashedView(h, v)[p] == HashedView(h, w)[p] == Hashed(h, w[p]);
        if v[p].Unreadable? {
          PrefixCancels("missing:", v[p].error, w[p].error);
        }
      }
    }
  }

  /** No readable source spells the text that stands for an unreadable one. */
  ghost predicate Legible(h: Hashing, view: map<string, ReadResult>) {
    forall p, error :: p in view && view[p].Contents? ==> view[p].bytes != h.utf8("missing:" + error)
  }

  lemma LegibleViewsAreEqual(h: Hashing, v: map<string, ReadResult>, w: map<string, ReadResult>)
    requires Injective(h.utf8) && Legible(h, v) && Legible(h, w)
    requires HashedView(h, v) == HashedView(h, w)
    ensures v == w
  {
    forall p | p in v && p in w
      ensures v[p].Contents? <==> w[p].Contents?
    {
      assert Hashed(h, v[p]) == HashedView(h, v)[p] == HashedView(h, w)[p] == Hashed(h, w[p]);
    }
    HashedViewsDetermineViews(h, v, w);
  }

  /** The length of every hashed path and source fits in 64 bits. */
  ghost predicate Addressable(h: Hashing, view: map<string, ReadResult>) {
    && |h.utf8(SESSION_MARK)| < U64_LIMIT
    && forall p :: p in view ==> |h.utf8(p)| < U64_LIMIT && |Hashed(h, view[p])| < U64_LIMIT
  }

  lemma {:induction false} FlattenIsShort(h: Hashing, pairs: seq<(string, Bytes)>)
    requires forall x :: x in pairs ==> |h.utf8(x.0)| < U64_LIMIT && |x.1| < U64_LIMIT
    ensures Short(Flatten(h, pairs))
  {
    if pairs != [] {
      FlattenIsShort(h, pairs[1..]);
      assert pairs[0] in pairs;
    }
  }

  lemma AddressableIsShort(h: Hashing, files: seq<string>, overlays: seq<Overlay>, disk: Disk)
    requires OneSourcePerPath(overlays) && Addressable(h, View(h, files, overlays, disk))
    ensures Short(Parts(h, files, overlays, disk))
  {
    var pairs := Pairs(h, files, overlays, disk);
    forall x | x in pairs
      ensures |h.utf8(x.0)| < U64_LIMIT && |x.1| < U64_LIMIT
    {
      assert (x.0, x.1) in pairs;
      PairsDescribeView(h, files, overlays, disk, x.0, x.1);
    }
    FlattenIsShort(h, pairs);
  }

  /** A view is a set of paths and their sources: the order of the lists does not matter. */
  lemma ViewIgnoresOrder(
    h: Hashing, files1: seq<string>, overlays1: seq<Overlay>,
    files2: seq<string>, overlays2: seq<Overlay>, disk: Disk)
    requires OneSourcePerPath(overlays1) && multiset(overlays1) == multiset(overlays2)
    requires forall p :: p in files1 <==> p in files2
    ensures View(h, files1, overlays1, disk) == View(h, files2, overlays2, disk)
  {
    var v1, v2 := View(h, files1, overlays1, disk), View(h, files2, overlays2, disk);
    forall x
      ensures x in overlays1 <==> x in overlays2
    {
      SameElements(overlays1, overlays2, x);
    }
    forall p
      ensures p in v1 <==> p in v2
      ensures p in v1 ==> v1[p] == v2[p]
    {
      LookupIgnoresOrder(overlays1, overlays2, p);
      if p in v1 && p !in files1 {
        var o :| o in overlays1 && o.path == p;
        assert o in overlays2;
      }
      if p in v2 && p !in files2 {
        var o :| o in overlays2 && o.path == p;
        assert o in overlays1;
      }
    }
  }

  /** The collision the stream does have: an unreadable file and a file with that very text. */
  lemma MissingFileCollides(h: Hashing)
    ensures var gone: Disk := _ => Unreadable("not found");
      var spelled: Disk := _ => Contents(h.utf8("missing:not found"));
      && Parts(h, ["a"], [], gone) == Parts(h, ["a"], [], spelled)
      && View(h, ["a"], [], gone) != View(h, ["a"], [], spelled)
  {
    var gone: Disk := _ => Unreadable("not found");
    var spelled: Disk := _ => Contents(h.utf8("missing:not found"));
    assert "missing:" + "not found" == "missing:not found";
    assert FilePairs(h, ["a"], [], gone) == FilePairs(h, ["a"], [], spelled);
    assert "a" in View(h, ["a"], [], gone) && "a" in View(h, ["a"], [], spelled);
    assert View(h, ["a"], [], gone)["a"] != View(h, ["a"], [], spelled)["a"];
  }
}
