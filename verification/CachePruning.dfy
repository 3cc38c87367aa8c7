/** Oldest-first eviction of the on-disk cache. */
module CachePruning {
  import opened Ordering

  const U64_MAX := 0xFFFF_FFFF_FFFF_FFFF

  datatype CacheFileInfo = CacheFileInfo(modified: nat, path: string, length: nat)

  function SaturatingAdd(a: nat, b: nat): nat {
    if a + b > U64_MAX then U64_MAX else a + b
  }

  function SaturatingSub(a: nat, b: nat): nat {
    if a < b then 0 else a - b
  }

  predicate OlderOrSame(a: CacheFileInfo, b: CacheFileInfo) {
    a.modified < b.modified || (a.modified == b.modified && StringLeq(a.path, b.path))
  }

  /** Older files come first, and of one age those whose names come first. */
  ghost predicate InAgeOrder(files: seq<CacheFileInfo>) {
    forall i, j :: 0 <= i < j < |files| ==>
      && files[i].modified <= files[j].modified
      && (files[i].modified == files[j].modified ==> StringLeq(files[i].path, files[j].path))
  }

  function SumLengths(files: seq<CacheFileInfo>): nat {
    if files == [] then 0 else files[0].length + SumLengths(files[1..])
  }

  /** Removing the `n` oldest files fits the capacity and removing fewer does not. */
  ghost predicate ShortestPrefix(files: seq<CacheFileInfo>, maxBytes: nat, n: nat) {
    && n <= |files|
    && SumLengths(files[n..]) <= maxBytes
    && forall m :: 0 <= m < n ==> SumLengths(files[m..]) > maxBytes
  }

  /** Exactly the shortest oldest-first prefix that makes the rest fit has been removed. */
  ghost predicate OldestPrefixEvicted(
    entries: seq<CacheFileInfo>, maxBytes: nat, evicted: seq<CacheFileInfo>, kept: seq<CacheFileInfo>)
  {
    && ShortestPrefix(entries, maxBytes, |evicted|)
    && evicted == entries[..|evicted|]
    && kept == entries[|evicted|..]
  }

  lemma {:induction false} SumAppend(files: seq<CacheFileInfo>, file: CacheFileInfo)
    ensures SumLengths(files + [file]) == SumLengths(files) + file.length
  {
    if files == [] {
      assert files + [file] == [file];
      assert SumLengths([file][1..]) == 0;
    } else {
      assert (files + [file])[1..] == files[1..] + [file];
      SumAppend(files[1..], file);
    }
  }

  lemma {:induction false} SumSplit(files: seq<CacheFileInfo>, n: nat)
    requires n <= |files|
    ensures SumLengths(files) == SumLengths(files[..n]) + SumLengths(files[n..])
  {
    if n == 0 {
      assert files[0..] == files;
    } else {
      assert files[..n][1..] == files[1..][..n - 1];
      assert files[n..] == files[1..][n - 1..];
      SumSplit(files[1..], n - 1);
    }
  }

  lemma OlderIsTotalPreorder()
    ensures TotalPreorder(OlderOrSame)
  {
    forall a, b: CacheFileInfo
      ensures OlderOrSame(a, b) || OlderOrSame(b, a)
    {
      StringLeqTotal(a.path, b.path);
    }
    forall a, b, c: CacheFileInfo | OlderOrSame(a, b) && OlderOrSame(b, c)
      ensures OlderOrSame(a, c)
    {
      if a.modified == c.modified {
        StringLeqTransitive(a.path, b.path, c.path);
      }
    }
  }

  lemma SortedByAge(listing: seq<CacheFileInfo>)
    ensures InAgeOrder(Sort(OlderOrSame, listing))
  {
    OlderIsTotalPreorder();
    SortIsSorted(OlderOrSame, listing);
  }

  lemma {:induction false} InsertKeepsSum(file: CacheFileInfo, files: seq<CacheFileInfo>)
    ensures SumLengths(Insert(OlderOrSame, file, files)) == file.length + SumLengths(files)
  {
    if files != [] && !OlderOrSame(file, files[0]) {
      InsertKeepsSum(file, files[1..]);
    }
  }

  lemma {:induction false} SortKeepsSum(files: seq<CacheFileInfo>)
    ensures SumLengths(Sort(OlderOrSame, files)) == SumLengths(files)
  {
    if files != [] {
      SortKeepsSum(files[1..]);
      InsertKeepsSum(files[0], Sort(OlderOrSame, files[1..]));
    }
  }

  /** `min(sum, 2^64 - 1)`: what a saturating running total arrives at. */
  function Capped(n: nat): nat {
    if n > U64_MAX then U64_MAX else n
  }

  // ----- What the loop does -----

  datatype Pruning = Pruning(evicted: seq<CacheFileInfo>, kept: seq<CacheFileInfo>, total: nat)

  /** What the loop over sorted entries comes to when its count stands at `total`. */
  function Scanning(entries: seq<CacheFileInfo>, maxBytes: nat, stuck: set<string>, total: nat): Pruning {
    if entries == [] || total <= maxBytes then Pruning([], entries, total)
    else if entries[0].path in stuck then
      var rest := Scanning(entries[1..], maxBytes, stuck, total);
      rest.(kept := [entries[0]] + rest.kept)
    else
      var rest := Scanning(entries[1..], maxBytes, stuck, SaturatingSub(total, entries[0].length));
      rest.(evicted := [entries[0]] + rest.evicted)
  }

  function PruningOf(listing: seq<CacheFileInfo>, maxBytes: nat, stuck: set<string>): Pruning {
    Scanning(Sort(OlderOrSame, listing), maxBytes, stuck, Capped(SumLengths(listing)))
  }

  /** The final count is the first one less what was evicted, and files are neither lost nor doubled. */
  lemma {:induction false} ScanningCounts(entries: seq<CacheFileInfo>, maxBytes: nat, stuck: set<string>, total: nat)
    ensures var r := Scanning(entries, maxBytes, stuck, total);
      && r.total == SaturatingSub(total, SumLengths(r.evicted))
      && SumLengths(r.evicted) + SumLengths(r.kept) == SumLengths(entries)
  {
    if entries != [] && total > maxBytes {
      var rest := if entries[0].path in stuck then Scanning(entries[1..], maxBytes, stuck, total)
        else Scanning(entries[1..], maxBytes, stuck, SaturatingSub(total, entries[0].length));
      ScanningCounts(
        entries[1..], maxBytes, stuck,
        if entries[0].path in stuck then total else SaturatingSub(total, entries[0].length));
      assert ([entries[0]] + rest.kept)[1..] == rest.kept && ([entries[0]] + rest.evicted)[1..] == rest.evicted;
    }
  }

  /** The running count is the bytes left on disk if and only if all files together stay below 2^64 bytes, or
      nothing with bytes is left. It never exceeds them, and falls short by at most the excess over 2^64 - 1. */
  lemma TotalIsExactIff(listing: seq<CacheFileInfo>, maxBytes: nat, stuck: set<string>)
    ensures var r := PruningOf(listing, maxBytes, stuck);
      && (r.total == SumLengths(r.kept) <==> SumLengths(listing) <= U64_MAX || SumLengths(r.kept) == 0)
      && r.total <= SumLengths(r.kept) <= r.total + (SumLengths(listing) - Capped(SumLengths(listing)))
  {
    ScanningCounts(Sort(OlderOrSame, listing), maxBytes, stuck, Capped(SumLengths(listing)));
    SortKeepsSum(listing);
  }

  lemma EvictedGrows(entries: seq<CacheFileInfo>, n: nat)
    requires n < |entries|
    ensures entries[..n + 1] == [entries[0]] + entries[1..][..n] && entries[n + 1..] == entries[1..][n..]
  {
  }

  lemma PrefixGrows(entries: seq<CacheFileInfo>, maxBytes: nat, n: nat)
    requires entries != [] && SumLengths(entries) > maxBytes && ShortestPrefix(entries[1..], maxBytes, n)
    ensures ShortestPrefix(entries, maxBytes, n + 1)
  {
    assert entries[n + 1..] == entries[1..][n..];
    forall m | 0 <= m < n + 1
      ensures SumLengths(entries[m..]) > maxBytes
    {
      if m == 0 {
        assert entries[m..] == entries;
      } else {
        assert entries[m..] == entries[1..][m - 1..];
      }
    }
  }

  lemma EvictionGrows(
    entries: seq<CacheFileInfo>, maxBytes: nat, evicted: seq<CacheFileInfo>, kept: seq<CacheFileInfo>)
    requires entries != [] && SumLengths(entries) > maxBytes
    requires OldestPrefixEvicted(entries[1..], maxBytes, evicted, kept)
    ensures OldestPrefixEvicted(entries, maxBytes, [entries[0]] + evicted, kept)
  {
    PrefixGrows(entries, maxBytes, |evicted|);
    EvictedGrows(entries, |evicted|);
  }

  /** The scan of files that can all be removed, with an exact count, stops at the shortest prefix. */
  lemma {:induction false} FreeScanning(entries: seq<CacheFileInfo>, maxBytes: nat)
    ensures var r := Scanning(entries, maxBytes, {}, SumLengths(entries));
      OldestPrefixEvicted(entries, maxBytes, r.evicted, r.kept)
  {
    if entries != [] && SumLengths(entries) > maxBytes {
      FreeScanning(entries[1..], maxBytes);
      var rest := Scanning(entries[1..], maxBytes, {}, SumLengths(entries[1..]));
      EvictionGrows(entries, maxBytes, rest.evicted, rest.kept);
    } else {
      assert entries[0..] == entries && entries[..0] == [];
    }
  }

  const LARGEST_FILE := 0x7FFF_FFFF_FFFF_FFFF

  /** Files of different ages have different names. */
  function LargeFile(age: nat): CacheFileInfo
    requires age < 26
  {
    CacheFileInfo(age, [(age + 'a' as nat) as char], LARGEST_FILE)
  }

  lemma LargeFilesSum()
    ensures SumLengths([LargeFile(1), LargeFile(2)]) == 2 * LARGEST_FILE
    ensures SumLengths([LargeFile(0), LargeFile(1), LargeFile(2)]) == 3 * LARGEST_FILE
  {
    var one, two := [LargeFile(2)], [LargeFile(1), LargeFile(2)];
    assert one[1..] == [] && SumLengths(one) == LARGEST_FILE;
    assert two[1..] == one;
    assert [LargeFile(0), LargeFile(1), LargeFile(2)][1..] == two;
  }

  /** Three of the largest files there can be and a capacity of one of them and a byte: one is removed, and the
      count says that the other two fit. */
  lemma SaturationUndercounts()
    ensures var r := PruningOf([LargeFile(0), LargeFile(1), LargeFile(2)], LARGEST_FILE + 1, {});
      && r == Pruning([LargeFile(0)], [LargeFile(1), LargeFile(2)], LARGEST_FILE + 1)
      && SumLengths(r.kept) == 2 * LARGEST_FILE > LARGEST_FILE + 1
  {
    var listing, left := [LargeFile(0), LargeFile(1), LargeFile(2)], [LargeFile(1), LargeFile(2)];
    LargeFilesSum();
    SortOfSorted(OlderOrSame, listing);
    assert listing[1..] == left;
    assert Scanning(left, LARGEST_FILE + 1, {}, LARGEST_FILE + 1) == Pruning([], left, LARGEST_FILE + 1);
  }

  // ----- The loop -----

  method TotalBytes(listing: seq<CacheFileInfo>) returns (total: nat)
    ensures total == Capped(SumLengths(listing))
  {
    total := 0;
    for n := 0 to |listing|
      invariant total == Capped(SumLengths(listing[..n]))
    {
      assert listing[..n + 1] == listing[..n] + [listing[n]];
      SumAppend(listing[..n], listing[n]);
      total := SaturatingAdd(total, listing[n].length);
    }
    assert listing[..|listing|] == listing;
  }

  /** The loop has come to `n` on its way to `goal`. */
  ghost predicate Underway(
    entries: seq<CacheFileInfo>, n: nat, maxBytes: nat, stuck: set<string>,
    evicted: seq<CacheFileInfo>, passed: seq<CacheFileInfo>, total: nat, goal: Pruning)
  {
    && n <= |entries|
    && var rest := Scanning(entries[n..], maxBytes, stuck, total);
      goal == Pruning(evicted + rest.evicted, passed + rest.kept, rest.total)
  }

  lemma UnderwayOneMore(
    entries: seq<CacheFileInfo>, n: nat, maxBytes: nat, stuck: set<string>,
    evicted: seq<CacheFileInfo>, passed: seq<CacheFileInfo>, total: nat, goal: Pruning)
    requires Underway(entries, n, maxBytes, stuck, evicted, passed, total, goal)
    requires n < |entries| && total > maxBytes
    ensures entries[n].path in stuck ==>
      Underway(entries, n + 1, maxBytes, stuck, evicted, passed + [entries[n]], total, goal)
    ensures entries[n].path !in stuck ==>
      Underway(
        entries, n + 1, maxBytes, stuck, evicted + [entries[n]], passed,
        SaturatingSub(total, entries[n].length), goal)
  {
    assert entries[n..][1..] == entries[n + 1..] && entries[n..][0] == entries[n];
  }

  /** `evicted` and `passed` split the first `n` files: what was removed and what refused to go. */
  ghost predicate Scanned(
    entries: seq<CacheFileInfo>, n: nat, stuck: set<string>,
    evicted: seq<CacheFileInfo>, passed: seq<CacheFileInfo>)
  {
    && n <= |entries|
    && multiset(evicted) + multiset(passed) == multiset(entries[..n])
    && (forall f :: f in evicted ==> f.path !in stuck)
    && (forall f :: f in passed ==> f.path in stuck)
    && (stuck == {} ==> evicted == entries[..n] && passed == [])
  }

  /** What the running total is worth after `n` files, and why the loop has come this far. */
  ghost predicate Steered(
    entries: seq<CacheFileInfo>, n: nat, maxBytes: nat, stuck: set<string>,
    passed: seq<CacheFileInfo>, total: nat)
  {
    && n <= |entries|
    && total <= SumLengths(passed) + SumLengths(entries[n..])
    && (SumLengths(entries) <= U64_MAX ==>
      && total == SumLengths(passed) + SumLengths(entries[n..])
      && (stuck == {} ==> forall m :: 0 <= m < n ==> SumLengths(entries[m..]) > maxBytes))
  }

  lemma ScanOneMore(
    entries: seq<CacheFileInfo>, n: nat, stuck: set<string>,
    evicted: seq<CacheFileInfo>, passed: seq<CacheFileInfo>)
    requires Scanned(entries, n, stuck, evicted, passed) && n < |entries|
    ensures entries[n].path in stuck ==> Scanned(entries, n + 1, stuck, evicted, passed + [entries[n]])
    ensures entries[n].path !in stuck ==> Scanned(entries, n + 1, stuck, evicted + [entries[n]], passed)
  {
    assert entries[..n + 1] == entries[..n] + [entries[n]];
  }

  lemma SteerOneMore(
    entries: seq<CacheFileInfo>, n: nat, maxBytes: nat, stuck: set<string>,
    evicted: seq<CacheFileInfo>, passed: seq<CacheFileInfo>, total: nat)
    requires Scanned(entries, n, stuck, evicted, passed) && n < |entries|
    requires Steered(entries, n, maxBytes, stuck, passed, total) && total > maxBytes
    ensures entries[n].path in stuck ==>
      Steered(entries, n + 1, maxBytes, stuck, passed + [entries[n]], total)
    ensures entries[n].path !in stuck ==>
      Steered(entries, n + 1, maxBytes, stuck, passed, SaturatingSub(total, entries[n].length))
  {
    assert entries[n..][1..] == entries[n + 1..];
    SumAppend(passed, entries[n]);
  }

  lemma {:induction false} SumConcat(a: seq<CacheFileInfo>, b: seq<CacheFileInfo>)
    ensures SumLengths(a + b) == SumLengths(a) + SumLengths(b)
  {
    SumSplit(a + b, |a|);
    assert (a + b)[..|a|] == a && (a + b)[|a|..] == b;
  }

  lemma EarlierIsOlder(entries: seq<CacheFileInfo>, n: nat, f: CacheFileInfo, g: CacheFileInfo)
    requires Sorted(OlderOrSame, entries) && n <= |entries|
    requires g in entries[..n] && f in entries[n..]
    ensures OlderOrSame(g, f)
  {
    var i :| n <= i < |entries| && entries[i] == f;
    var j :| 0 <= j < n && entries[j] == g;
    assert OlderOrSame(entries[j], entries[i]);
  }

  /** When the scan stops at `n`, a file left behind had refused to go or comes later. */
  lemma FilesLeftAreYounger(
    entries: seq<CacheFileInfo>, n: nat, stuck: set<string>,
    evicted: seq<CacheFileInfo>, passed: seq<CacheFileInfo>, f: CacheFileInfo, g: CacheFileInfo)
    requires Sorted(OlderOrSame, entries) && Scanned(entries, n, stuck, evicted, passed)
    requires f in passed + entries[n..] && g in evicted
    ensures f.path in stuck || OlderOrSame(g, f)
  {
    assert g in multiset(evicted) + multiset(passed);
    assert g in entries[..n];
    if f in entries[n..] {
      EarlierIsOlder(entries, n, f, g);
    }
  }

  /** What went was written before what stayed and could have gone, or at the same time and under a name that comes
      before. */
  ghost predicate AgesRespected(evicted: seq<CacheFileInfo>, kept: seq<CacheFileInfo>, stuck: set<string>) {
    forall gone, left :: gone in evicted && left in kept && left.path !in stuck ==>
      gone.modified <= left.modified && (gone.modified == left.modified ==> StringLeq(gone.path, left.path))
  }

  /** `listing` has been split into `evicted` and `kept`: nothing newer went while something older that
      could go was kept, and the count `total` ended within capacity unless nothing more could go.
      The count never exceeds the bytes on disk and is exact below 2^64. */
  ghost predicate Pruned(
    listing: seq<CacheFileInfo>, maxBytes: nat, stuck: set<string>,
    evicted: seq<CacheFileInfo>, kept: seq<CacheFileInfo>, total: nat)
  {
    && multiset(evicted) + multiset(kept) == multiset(listing)
    && (forall f :: f in evicted ==> f.path !in stuck)
    && AgesRespected(evicted, kept, stuck)
    && (total <= maxBytes || forall f :: f in kept ==> f.path in stuck)
    && total <= SumLengths(kept)
    && (SumLengths(listing) <= U64_MAX ==> total == SumLengths(kept))
  }

  /** The files left on disk are the ones that refused to go and the ones the scan did not reach. */
  lemma ScanEnds(
    entries: seq<CacheFileInfo>, n: nat, maxBytes: nat, stuck: set<string>,
    evicted: seq<CacheFileInfo>, passed: seq<CacheFileInfo>, total: nat)
    requires Sorted(OlderOrSame, entries)
    requires Scanned(entries, n, stuck, evicted, passed)
    requires Steered(entries, n, maxBytes, stuck, passed, total)
    requires n == |entries| || total <= maxBytes
    ensures Pruned(entries, maxBytes, stuck, evicted, passed + entries[n..], total)
  {
    var kept := passed + entries[n..];
    SumConcat(passed, entries[n..]);
    assert entries == entries[..n] + entries[n..];
    forall gone, left | gone in evicted && left in kept && left.path !in stuck
      ensures gone.modified <= left.modified && (gone.modified == left.modified ==> StringLeq(gone.path, left.path))
    {
      FilesLeftAreYounger(entries, n, stuck, evicted, passed, left, gone);
    }
  }

  /** When nothing refuses to go, the scan stops at the first prefix that is long enough. */
  lemma FreeScanEnds(
    entries: seq<CacheFileInfo>, n: nat, maxBytes: nat,
    evicted: seq<CacheFileInfo>, passed: seq<CacheFileInfo>, total: nat)
    requires SumLengths(entries) <= U64_MAX
    requires Scanned(entries, n, {}, evicted, passed)
    requires Steered(entries, n, maxBytes, {}, passed, total)
    requires n == |entries| || total <= maxBytes
    ensures OldestPrefixEvicted(entries, maxBytes, evicted, passed + entries[n..])
  {
    assert passed == [] && passed + entries[n..] == entries[n..];
    assert |evicted| == n;
  }

  /** Where the loop stands at `n`. */
  ghost predicate OnCourse(
    entries: seq<CacheFileInfo>, n: nat, maxBytes: nat, stuck: set<string>,
    evicted: seq<CacheFileInfo>, passed: seq<CacheFileInfo>, total: nat, goal: Pruning)
  {
    && Scanned(entries, n, stuck, evicted, passed)
    && Steered(entries, n, maxBytes, stuck, passed, total)
    && Underway(entries, n, maxBytes, stuck, evicted, passed, total, goal)
  }

  lemma CourseBegins(entries: seq<CacheFileInfo>, maxBytes: nat, stuck: set<string>, bytes: nat)
    requires bytes == Capped(SumLengths(entries))
    ensures OnCourse(entries, 0, maxBytes, stuck, [], [], bytes, Scanning(entries, maxBytes, stuck, bytes))
  {
    assert entries[..0] == [] && entries[0..] == entries;
  }

  lemma CourseOneMore(
    entries: seq<CacheFileInfo>, n: nat, maxBytes: nat, stuck: set<string>,
    evicted: seq<CacheFileInfo>, passed: seq<CacheFileInfo>, total: nat, goal: Pruning)
    requires OnCourse(entries, n, maxBytes, stuck, evicted, passed, total, goal)
    requires n < |entries| && total > maxBytes
    ensures if entries[n].path in stuck
      then OnCourse(entries, n + 1, maxBytes, stuck, evicted, passed + [entries[n]], total, goal)
      else OnCourse(
        entries, n + 1, maxBytes, stuck, evicted + [entries[n]], passed,
        SaturatingSub(total, entries[n].length), goal)
  {
    ScanOneMore(entries, n, stuck, evicted, passed);
    SteerOneMore(entries, n, maxBytes, stuck, evicted, passed, total);
    UnderwayOneMore(entries, n, maxBytes, stuck, evicted, passed, total, goal);
  }

  lemma CourseEnds(
    entries: seq<CacheFileInfo>, n: nat, maxBytes: nat, stuck: set<string>,
    evicted: seq<CacheFileInfo>, passed: seq<CacheFileInfo>, total: nat, goal: Pruning, kept: seq<CacheFileInfo>)
    requires Sorted(OlderOrSame, entries)
    requires OnCourse(entries, n, maxBytes, stuck, evicted, passed, total, goal)
    requires (n == |entries| || total <= maxBytes) && kept == passed + entries[n..]
    ensures goal == Pruning(evicted, kept, total) && Pruned(entries, maxBytes, stuck, evicted, kept, total)
    ensures SumLengths(entries) <= U64_MAX && stuck == {} ==> OldestPrefixEvicted(entries, maxBytes, evicted, kept)
  {
    ScanEnds(entries, n, maxBytes, stuck, evicted, passed, total);
    if SumLengths(entries) <= U64_MAX && stuck == {} {
      FreeScanEnds(entries, n, maxBytes, evicted, passed, total);
    }
  }

  method Scan(entries: seq<CacheFileInfo>, maxBytes: nat, stuck: set<string>, bytes: nat)
    returns (evicted: seq<CacheFileInfo>, kept: seq<CacheFileInfo>, total: nat)
    requires Sorted(OlderOrSame, entries) && bytes == Capped(SumLengths(entries))
    ensures Pruning(evicted, kept, total) == Scanning(entries, maxBytes, stuck, bytes)
    ensures Pruned(entries, maxBytes, stuck, evicted, kept, total)
    ensures SumLengths(entries) <= U64_MAX && stuck == {} ==> OldestPrefixEvicted(entries, maxBytes, evicted, kept)
  {
    ghost var goal := Scanning(entries, maxBytes, stuck, bytes);
    CourseBegins(entries, maxBytes, stuck, bytes);
    total := bytes;
    evicted := [];
    var passed: seq<CacheFileInfo> := [];
    var n := 0;
    while n < |entries| && total > maxBytes
      invariant n <= |entries| && OnCourse(entries, n, maxBytes, stuck, evicted, passed, total, goal)
    {
      CourseOneMore(entries, n, maxBytes, stuck, evicted, passed, total, goal);
      if entries[n].path !in stuck {
        total := SaturatingSub(total, entries[n].length);
        evicted := evicted + [entries[n]];
      } else {
        passed := passed + [entries[n]];
      }
      n := n + 1;
    }
    kept := passed + entries[n..];
    CourseEnds(entries, n, maxBytes, stuck, evicted, passed, total, goal, kept);
  }

  lemma SaturatedIsPruned()
    ensures Pruned(
      [LargeFile(0), LargeFile(1), LargeFile(2)], LARGEST_FILE + 1, {}, [LargeFile(0)],
      [LargeFile(1), LargeFile(2)], LARGEST_FILE + 1)
  {
    var kept := [LargeFile(1), LargeFile(2)];
    LargeFilesSum();
    assert [LargeFile(0), LargeFile(1), LargeFile(2)] == [LargeFile(0)] + kept;
  }

  /** The listing comes in directory order; `stuck` are the paths whose removal fails. `total` is the
      running count of bytes that steers the loop. */
  method Prune(listing: seq<CacheFileInfo>, maxBytes: nat, stuck: set<string>)
    returns (evicted: seq<CacheFileInfo>, kept: seq<CacheFileInfo>, removed: nat, total: nat)
    ensures Pruning(evicted, kept, total) == PruningOf(listing, maxBytes, stuck)
    ensures removed == |evicted| && Pruned(listing, maxBytes, stuck, evicted, kept, total)
    ensures SumLengths(listing) <= U64_MAX && stuck == {} ==>
      InAgeOrder(evicted + kept) && ShortestPrefix(evicted + kept, maxBytes, removed)
  {
    var bytes := TotalBytes(listing);
    var entries := Sort(OlderOrSame, listing);
    SortKeepsSum(listing);
    OlderIsTotalPreorder();
    SortIsSorted(OlderOrSame, listing);
    evicted, kept, total := Scan(entries, maxBytes, stuck, bytes);
    removed := |evicted|;
    SortedByAge(listing);
    if SumLengths(listing) <= U64_MAX && stuck == {} {
      assert entries == evicted + kept;
    }
  }
}
