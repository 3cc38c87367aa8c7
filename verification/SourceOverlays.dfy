/** In-memory sources that take the place of files. */
module SourceOverlays {
  import opened Wrappers
  import opened Ordering

  datatype Overlay = Overlay(path: string, source: string)

  /** The first overlay of `path`, as the checker and the fingerprint look it up. */
  function Lookup(overlays: seq<Overlay>, path: string): Option<string> {
    if overlays == [] then None
    else if overlays[0].path == path then Some(overlays[0].source)
    else Lookup(overlays[1..], path)
  }

  /** No path is given two different sources. */
  ghost predicate OneSourcePerPath(overlays: seq<Overlay>) {
    forall x, y :: x in overlays && y in overlays && x.path == y.path ==> x == y
  }

  function Replaced(overlays: seq<Overlay>, path: string, source: string): seq<Overlay> {
    if overlays == [] then [Overlay(path, source)]
    else if overlays[0].path == path then [Overlay(path, source)] + overlays[1..]
    else [overlays[0]] + Replaced(overlays[1..], path, source)
  }

  lemma {:induction false} ReplacedPrefix(overlays: seq<Overlay>, n: nat, path: string, source: string)
    requires n <= |overlays|
    requires forall i :: 0 <= i < n ==> overlays[i].path != path
    ensures n < |overlays| && overlays[n].path == path ==>
      Replaced(overlays, path, source) == overlays[n := Overlay(path, source)]
    ensures n == |overlays| ==> Replaced(overlays, path, source) == overlays + [Overlay(path, source)]
  {
    if n > 0 {
      ReplacedPrefix(overlays[1..], n - 1, path, source);
      assert overlays == [overlays[0]] + overlays[1..];
    }
  }

  /** Overwrites the first overlay of `path`, or adds one at the end. */
  method ReplaceSourceOverride(overlays: seq<Overlay>, path: string, source: string) returns (r: seq<Overlay>)
    ensures r == Replaced(overlays, path, source)
  {
    var n := 0;
    while n < |overlays| && overlays[n].path != path
      invariant n <= |overlays| && forall i :: 0 <= i < n ==> overlays[i].path != path
    {
      n := n + 1;
    }
    ReplacedPrefix(overlays, n, path, source);
    r := if n < |overlays| then overlays[n := Overlay(path, source)] else overlays + [Overlay(path, source)];
  }

  lemma {:induction false} LookupAfterReplace(overlays: seq<Overlay>, path: string, source: string, q: string)
    ensures Lookup(Replaced(overlays, path, source), q) == if q == path then Some(source) else Lookup(overlays, q)
  {
    if overlays != [] && overlays[0].path != path {
      LookupAfterReplace(overlays[1..], path, source, q);
    }
  }

  lemma {:induction false} LookupMeansMember(overlays: seq<Overlay>, path: string, source: string)
    requires OneSourcePerPath(overlays)
    ensures Lookup(overlays, path) == Some(source) <==> Overlay(path, source) in overlays
  {
    if overlays != [] {
      assert overlays == [overlays[0]] + overlays[1..];
      LookupMeansMember(overlays[1..], path, source);
      if overlays[0].path == path && Overlay(path, source) in overlays {
        assert overlays[0] == Overlay(path, source);
      }
    }
  }

  ghost predicate DistinctPaths(overlays: seq<Overlay>) {
    forall i, j :: 0 <= i < j < |overlays| ==> overlays[i].path != overlays[j].path
  }

  lemma {:induction false} ReplacedMembers(overlays: seq<Overlay>, path: string, source: string)
    requires DistinctPaths(overlays)
    ensures DistinctPaths(Replaced(overlays, path, source))
    ensures forall x :: x in Replaced(overlays, path, source) <==>
      x == Overlay(path, source) || (x in overlays && x.path != path)
  {
    if overlays != [] {
      assert overlays == [overlays[0]] + overlays[1..];
      if overlays[0].path == path {
        assert forall x :: x in overlays[1..] ==> x.path != path;
      } else {
        ReplacedMembers(overlays[1..], path, source);
        var rest := Replaced(overlays[1..], path, source);
        forall j | 0 <= j < |rest|
          ensures rest[j].path != overlays[0].path
        {
          assert rest[j] in rest;
        }
      }
    }
  }

  lemma DistinctMeansOneSource(overlays: seq<Overlay>)
    requires DistinctPaths(overlays)
    ensures OneSourcePerPath(overlays)
  {
  }

  function PathOf(o: Overlay): string {
    o.path
  }

  /** The overlays an editor check uses: the open file's text wins, and the list is sorted by path. */
  function OverridesWithCurrent(path: string, source: string, overlays: seq<Overlay>): seq<Overlay> {
    Sort(ByName(PathOf), Replaced(overlays, path, source))
  }

  lemma LookupIgnoresOrder(s: seq<Overlay>, t: seq<Overlay>, path: string)
    requires multiset(s) == multiset(t) && OneSourcePerPath(s)
    ensures OneSourcePerPath(t) && Lookup(s, path) == Lookup(t, path)
  {
    forall x
      ensures x in s <==> x in t
    {
      SameElements(s, t, x);
    }
    if Lookup(s, path).Some? {
      LookupMeansMember(s, path, Lookup(s, path).value);
      LookupMeansMember(t, path, Lookup(s, path).value);
    } else if Lookup(t, path).Some? {
      LookupMeansMember(t, path, Lookup(t, path).value);
      LookupMeansMember(s, path, Lookup(t, path).value);
    }
  }

  lemma LookupFirst(x: Overlay, overlays: seq<Overlay>, q: string)
    ensures Lookup([x] + overlays, q) == if x.path == q then Some(x.source) else Lookup(overlays, q)
  {
    assert ([x] + overlays)[1..] == overlays;
  }

  /** Overlays that must change places have different paths. */
  ghost predicate KeepsPathOrder(leq: (Overlay, Overlay) -> bool) {
    forall x, y :: !leq(x, y) ==> x.path != y.path
  }

  lemma SortByPathIsStable()
    ensures KeepsPathOrder(ByName(PathOf))
  {
    forall x, y | !ByName(PathOf)(x, y)
      ensures x.path != y.path
    {
      StringLeqTotal(x.path, y.path);
      assert !StringLeq(PathOf(x), PathOf(y));
    }
  }

  lemma {:induction false} LookupAfterInsert(
    leq: (Overlay, Overlay) -> bool, x: Overlay, overlays: seq<Overlay>, q: string)
    requires KeepsPathOrder(leq)
    ensures Lookup(Insert(leq, x, overlays), q) == Lookup([x] + overlays, q)
  {
    LookupFirst(x, overlays, q);
    if overlays == [] {
      assert [x] + overlays == [x];
    } else if !leq(x, overlays[0]) {
      LookupAfterInsert(leq, x, overlays[1..], q);
      LookupFirst(x, overlays[1..], q);
      LookupFirst(overlays[0], Insert(leq, x, overlays[1..]), q);
    }
  }

  /** A stable sort by path changes no answer, not even where a path is listed twice. */
  lemma {:induction false} LookupAfterSort(leq: (Overlay, Overlay) -> bool, overlays: seq<Overlay>, q: string)
    requires KeepsPathOrder(leq)
    ensures Lookup(Sort(leq, overlays), q) == Lookup(overlays, q)
  {
    if overlays != [] {
      var rest := Sort(leq, overlays[1..]);
      LookupAfterSort(leq, overlays[1..], q);
      LookupAfterInsert(leq, overlays[0], rest, q);
      LookupFirst(overlays[0], rest, q);
    }
  }

  /** The current file reads as its editor text and every other path as before, whatever is listed twice. */
  lemma CurrentSourceWins(path: string, source: string, overlays: seq<Overlay>, q: string)
    ensures Lookup(OverridesWithCurrent(path, source, overlays), q)
         == if q == path then Some(source) else Lookup(overlays, q)
  {
    SortByPathIsStable();
    LookupAfterSort(ByName(PathOf), Replaced(overlays, path, source), q);
    LookupAfterReplace(overlays, path, source, q);
  }

  /** Lists in which no path is listed twice stay such lists. */
  lemma CurrentKeepsOneSource(path: string, source: string, overlays: seq<Overlay>)
    requires DistinctPaths(overlays)
    ensures OneSourcePerPath(OverridesWithCurrent(path, source, overlays))
  {
    ReplacedMembers(overlays, path, source);
    DistinctMeansOneSource(Replaced(overlays, path, source));
    LookupIgnoresOrder(Replaced(overlays, path, source), OverridesWithCurrent(path, source, overlays), path);
  }

  /** The last overlay that names `q`, by its own path or by the canonical form of it. */
  function LastNaming(overlays: seq<Overlay>, canonical: string -> Option<string>, q: string): Option<string> {
    if overlays == [] then None
    else
      var last := overlays[|overlays| - 1];
      if last.path == q || canonical(last.path) == Some(q) then Some(last.source)
      else LastNaming(overlays[..|overlays| - 1], canonical, q)
  }

  /** `expanded` answers every path with the last overlay that names it. */
  ghost predicate Expanded(expanded: seq<Overlay>, overlays: seq<Overlay>, canonical: string -> Option<string>) {
    && DistinctPaths(expanded)
    && forall q :: Lookup(expanded, q) == LastNaming(overlays, canonical, q)
  }

  function Aliased(expanded: seq<Overlay>, canonical: string -> Option<string>, o: Overlay): seq<Overlay> {
    var own := Replaced(expanded, o.path, o.source);
    if canonical(o.path).Some? then Replaced(own, canonical(o.path).value, o.source) else own
  }

  lemma AliasedLookup(expanded: seq<Overlay>, canonical: string -> Option<string>, o: Overlay, q: string)
    requires DistinctPaths(expanded)
    ensures DistinctPaths(Aliased(expanded, canonical, o))
    ensures Lookup(Aliased(expanded, canonical, o), q)
         == if o.path == q || canonical(o.path) == Some(q) then Some(o.source) else Lookup(expanded, q)
  {
    var own := Replaced(expanded, o.path, o.source);
    ReplacedMembers(expanded, o.path, o.source);
    LookupAfterReplace(expanded, o.path, o.source, q);
    if canonical(o.path).Some? {
      ReplacedMembers(own, canonical(o.path).value, o.source);
      LookupAfterReplace(own, canonical(o.path).value, o.source, q);
    }
  }

  lemma ExpandedGrows(expanded: seq<Overlay>, overlays: seq<Overlay>, canonical: string -> Option<string>, o: Overlay)
    requires Expanded(expanded, overlays, canonical)
    ensures Expanded(Aliased(expanded, canonical, o), overlays + [o], canonical)
  {
    assert (overlays + [o])[..|overlays|] == overlays;
    AliasedLookup(expanded, canonical, o, o.path);
    forall q: string
      ensures Lookup(Aliased(expanded, canonical, o), q) == LastNaming(overlays + [o], canonical, q)
    {
      AliasedLookup(expanded, canonical, o, q);
    }
  }

  /** Every overlay is entered under its path and under its canonical path; a later mention of a path
      overrides an earlier one, and no path is listed twice. */
  method SourceOverridesWithCanonicalAliases(overlays: seq<Overlay>, canonical: string -> Option<string>)
    returns (expanded: seq<Overlay>)
    ensures DistinctPaths(expanded)
    ensures forall q :: Lookup(expanded, q) == LastNaming(overlays, canonical, q)
  {
    expanded := [];
    for n := 0 to |overlays|
      invariant Expanded(expanded, overlays[..n], canonical)
    {
      var o := overlays[n];
      assert overlays[..n + 1] == overlays[..n] + [o];
      ExpandedGrows(expanded, overlays[..n], canonical, o);
      expanded := ReplaceSourceOverride(expanded, o.path, o.source);
      if canonical(o.path).Some? {
        expanded := ReplaceSourceOverride(expanded, canonical(o.path).value, o.source);
      }
    }
    assert overlays[..|overlays|] == overlays;
  }
}
