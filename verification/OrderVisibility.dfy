/** When the order of a header's declarations shows in its binding: exactly if two declarations of one name are
    rendered differently. */
module OrderVisibility {
  import opened Wrappers
  import opened Ordering
  import opened Declarations
  import opened Bindings
  import opened BindingOrder
  import opened Ownership
  import opened BindingTexts

  // ----- What no rearrangement changes -----

  function FunctionNames(functions: seq<CFunction>): (r: seq<string>)
    ensures |r| == |functions| && forall i :: 0 <= i < |r| ==> r[i] == functions[i].name
  {
    seq(|functions|, i requires 0 <= i < |functions| => functions[i].name)
  }

  function StructNames(structs: seq<CStruct>): (r: seq<string>)
    ensures |r| == |structs| && forall i :: 0 <= i < |r| ==> r[i] == structs[i].name
  {
    seq(|structs|, i requires 0 <= i < |structs| => structs[i].name)
  }

  /** Functions and structs stand in the order of their names. */
  ghost predicate InOrder(h: Headers) {
    Sorted(StringLeq, FunctionNames(h.functions)) && Sorted(StringLeq, StructNames(h.structs))
  }

  /** The same declarations, in order both times; only those of one name may have changed places. */
  ghost predicate Rearranged(h: Headers, h': Headers) {
    && h.opaqueTypes == h'.opaqueTypes
    && multiset(h.functions) == multiset(h'.functions)
    && multiset(h.structs) == multiset(h'.structs)
    && InOrder(h) && InOrder(h')
  }

  function HeadersOf(declared: seq<Declared>): Headers {
    SortedHeaders(Gathered(declared))
  }

  lemma HeadersAreInOrder(h: Headers)
    ensures InOrder(SortedHeaders(h))
  {
    ByNameIsTotalPreorder((f: CFunction) => f.name);
    ByNameIsTotalPreorder((item: CStruct) => item.name);
    SortIsSorted(ByFunctionName(), h.functions);
    SortIsSorted(ByStructName(), h.structs);
  }

  lemma HeadersAreRearranged(x: seq<Declared>, y: seq<Declared>)
    requires multiset(x) == multiset(y)
    ensures Rearranged(HeadersOf(x), HeadersOf(y))
  {
    GatheredForgetsOrder(x, y);
    HeadersAreInOrder(Gathered(x));
    HeadersAreInOrder(Gathered(y));
  }

  lemma SortedTextsAreUnique(x: seq<string>, y: seq<string>)
    requires multiset(x) == multiset(y) && Sorted(StringLeq, x) && Sorted(StringLeq, y)
    ensures x == y
  {
    StringOrder();
    forall a, b | a in x && b in x && StringLeq(a, b) && StringLeq(b, a)
      ensures a == b
    {
      StringLeqAntisymmetric(a, b);
    }
    SortedArrangementIsUnique(StringLeq, x, y);
  }

  lemma SameNames(h: Headers, h': Headers)
    requires Rearranged(h, h')
    ensures FunctionNames(h.functions) == FunctionNames(h'.functions)
    ensures StructNames(h.structs) == StructNames(h'.structs)
  {
    SameLength(h.functions, h'.functions);
    SameLength(h.structs, h'.structs);
    ImageForgetsOrder(h.functions, h'.functions, FunctionNames(h.functions), FunctionNames(h'.functions));
    ImageForgetsOrder(h.structs, h'.structs, StructNames(h.structs), StructNames(h'.structs));
    SortedTextsAreUnique(FunctionNames(h.functions), FunctionNames(h'.functions));
    SortedTextsAreUnique(StructNames(h.structs), StructNames(h'.structs));
  }

  lemma SameLength<T>(s: seq<T>, t: seq<T>)
    requires multiset(s) == multiset(t)
    ensures |s| == |t|
  {
    assert |s| == |multiset(s)| && |t| == |multiset(t)|;
  }

  lemma FirstReleaseIsLeast(functions: seq<CFunction>, opaqueTypes: seq<string>, name: string, i: int, f: CFunction)
    requires Sorted(StringLeq, FunctionNames(functions))
    requires IsFirstRelease(functions, opaqueTypes, name, i) && f in functions && Releases(f, name, opaqueTypes)
    ensures StringLeq(functions[i].name, f.name)
  {
    var k :| 0 <= k < |functions| && functions[k] == f;
    StringLeqTotal(f.name, f.name);
    assert k == i || StringLeq(FunctionNames(functions)[i], FunctionNames(functions)[k]);
  }

  lemma ReleaseForgetsOrder(h: Headers, h': Headers, name: string)
    requires Rearranged(h, h')
    ensures var releases, releases' :=
        InferReleases(h.functions, h.opaqueTypes), InferReleases(h'.functions, h'.opaqueTypes);
      (name in releases <==> name in releases') && (name in releases ==> releases[name] == releases'[name])
  {
    var i := ReleaseIsFirst(h.functions, h.opaqueTypes, name);
    var j := ReleaseIsFirst(h'.functions, h'.opaqueTypes, name);
    if name in InferReleases(h.functions, h.opaqueTypes) {
      SameElements(h.functions, h'.functions, h.functions[i]);
      FirstReleaseIsLeast(h'.functions, h'.opaqueTypes, name, j, h.functions[i]);
    }
    if name in InferReleases(h'.functions, h'.opaqueTypes) {
      SameElements(h.functions, h'.functions, h'.functions[j]);
      FirstReleaseIsLeast(h.functions, h.opaqueTypes, name, i, h'.functions[j]);
      StringLeqAntisymmetric(h.functions[i].name, h'.functions[j].name);
    }
  }

  function ReleasesIn(h: Headers): map<string, string> {
    InferReleases(h.functions, h.opaqueTypes)
  }

  function ScopeIn(h: Headers): Scope {
    ScopeOf(h, ReleasesIn(h))
  }

  /** Releases and struct names do not depend on the order, not even among functions of one name. */
  lemma ScopeForgetsOrder(h: Headers, h': Headers)
    requires Rearranged(h, h')
    ensures ReleasesIn(h) == ReleasesIn(h') && ScopeIn(h) == ScopeIn(h')
  {
    forall name
      ensures name in ReleasesIn(h) <==> name in ReleasesIn(h')
      ensures name in ReleasesIn(h) ==> ReleasesIn(h)[name] == ReleasesIn(h')[name]
    {
      ReleaseForgetsOrder(h, h', name);
    }
    SameNames(h, h');
    StructNamesAreSet(h.structs);
    StructNamesAreSet(h'.structs);
  }

  lemma StructNamesAreSet(structs: seq<CStruct>)
    ensures NamesOf(structs) == set name | name in StructNames(structs)
  {
    forall name
      ensures name in NamesOf(structs) <==> name in StructNames(structs)
    {
      if name in StructNames(structs) {
        var i :| 0 <= i < |structs| && StructNames(structs)[i] == name;
        assert structs[i].name == name;
      }
    }
  }

  // ----- Rendering in any order -----

  function RenderedIn(package: string, h: Headers): Result<string, HeaderError> {
    Rendered(package, h, ReleasesIn(h))
  }

  lemma CombiningForgetsOrder(r: seq<Result<string, HeaderError>>, q: seq<Result<string, HeaderError>>)
    requires multiset(r) == multiset(q)
    ensures Combining(r).Ok? <==> Combining(q).Ok?
  {
    CombinedForgetsOrder(r, q);
  }

  /** Whether a header can be rendered does not depend on the order. */
  lemma OkInAnyOrder(package: string, h: Headers, h': Headers)
    requires Rearranged(h, h')
    ensures RenderedIn(package, h).Ok? <==> RenderedIn(package, h').Ok?
  {
    var scope := ScopeIn(h);
    ScopeForgetsOrder(h, h');
    SameLength(h.functions, h'.functions);
    SameLength(h.structs, h'.structs);
    ImageForgetsOrder(
      h.functions, h'.functions, FunctionResults(h.functions, scope), FunctionResults(h'.functions, scope));
    ImageForgetsOrder(h.structs, h'.structs, StructResults(h.structs, scope), StructResults(h'.structs, scope));
    CombiningForgetsOrder(FunctionResults(h.functions, scope), FunctionResults(h'.functions, scope));
    CombiningForgetsOrder(StructResults(h.structs, scope), StructResults(h'.structs, scope));
    FunctionTextsCombine(h.functions, scope);
    FunctionTextsCombine(h'.functions, scope);
    StructTextsCombine(h.structs, scope);
    StructTextsCombine(h'.structs, scope);
  }

  ghost predicate FunctionsAlike(h: Headers) {
    forall f, g :: f in h.functions && g in h.functions && f.name == g.name ==>
      FunctionText(f, ScopeIn(h)) == FunctionText(g, ScopeIn(h))
  }

  ghost predicate StructsAlike(h: Headers) {
    forall x, y :: x in h.structs && y in h.structs && x.name == y.name ==>
      StructText(x, ScopeIn(h)) == StructText(y, ScopeIn(h))
  }

  /** Functions of one name are rendered alike, and so are structs of one name. */
  ghost predicate NamesakesAlike(h: Headers) {
    FunctionsAlike(h) && StructsAlike(h)
  }

  lemma AlikeInAnyOrder(package: string, h: Headers, h': Headers)
    requires Rearranged(h, h') && NamesakesAlike(h)
    ensures RenderedIn(package, h) == RenderedIn(package, h')
  {
    var scope := ScopeIn(h);
    ScopeForgetsOrder(h, h');
    SameNames(h, h');
    SameLength(h.functions, h'.functions);
    SameLength(h.structs, h'.structs);
    forall i | 0 <= i < |h.functions|
      ensures FunctionText(h.functions[i], scope) == FunctionText(h'.functions[i], scope)
    {
      SameElements(h.functions, h'.functions, h'.functions[i]);
      assert FunctionNames(h.functions)[i] == FunctionNames(h'.functions)[i];
    }
    forall i | 0 <= i < |h.structs|
      ensures StructText(h.structs[i], scope) == StructText(h'.structs[i], scope)
    {
      SameElements(h.structs, h'.structs, h'.structs[i]);
      assert StructNames(h.structs)[i] == StructNames(h'.structs)[i];
    }
    assert FunctionResults(h.functions, scope) == FunctionResults(h'.functions, scope);
    assert StructResults(h.structs, scope) == StructResults(h'.structs, scope);
    FunctionTextsCombine(h.functions, scope);
    FunctionTextsCombine(h'.functions, scope);
    StructTextsCombine(h.structs, scope);
    StructTextsCombine(h'.structs, scope);
  }

  // ----- Two neighbours change places -----

  function Swapped<T>(s: seq<T>, m: nat): (r: seq<T>)
    requires m + 1 < |s|
    ensures |r| == |s| && multiset(r) == multiset(s)
  {
    s[m := s[m + 1]][m + 1 := s[m]]
  }

  lemma SwappedPieces<T>(s: seq<T>, m: nat, before: seq<T>, after: seq<T>)
    requires m + 1 < |s| && before == s[..m] && after == s[m + 2..]
    ensures s == before + [s[m], s[m + 1]] + after
    ensures Swapped(s, m) == before + [s[m + 1], s[m]] + after
  {
  }

  lemma CombinedValues(results: seq<Result<string, HeaderError>>, texts: seq<string>)
    requires |texts| == |results| && forall i :: 0 <= i < |results| ==> results[i] == Ok(texts[i])
    ensures Combining(results) == Ok(Concat(texts))
  {
    CombinedIff(results);
    assert Combined(results).value == texts;
  }

  lemma ConcatAround(before: seq<string>, x: string, y: string, after: seq<string>)
    ensures Concat(before + [x, y] + after) == Concat(before) + (x + y) + Concat(after)
  {
    ConcatSplits(before + [x, y], after);
    ConcatSplits(before, [x, y]);
    ConcatOfTwo(x, y);
  }

  lemma SwappedConcat(texts: seq<string>, swapped: seq<string>, m: nat, c: char, tail: string)
    requires m + 1 < |texts| && Marked(texts[m], c, tail) && Marked(texts[m + 1], c, tail)
    requires texts[m] != texts[m + 1] && swapped == Swapped(texts, m)
    ensures Concat(texts) != Concat(swapped)
  {
    var before, after := texts[..m], texts[m + 2..];
    SwappedPieces(texts, m, before, after);
    ConcatAround(before, texts[m], texts[m + 1], after);
    ConcatAround(before, texts[m + 1], texts[m], after);
    ExchangeShows(Concat(before), texts[m], texts[m + 1], Concat(after), c, tail);
  }

  lemma ExchangeShows(before: string, x: string, y: string, after: string, c: char, tail: string)
    requires Marked(x, c, tail) && Marked(y, c, tail) && x != y
    ensures before + (x + y) + after != before + (y + x) + after
  {
    if before + (x + y) + after == before + (y + x) + after {
      Cancel(before, x + y, y + x, after);
      MarkedDoNotCommute(x, y, c, tail);
    }
  }

  lemma ConcatOfTwo(x: string, y: string)
    ensures Concat([x, y]) == x + y
  {
    var one, two := [x], [x, y];
    assert two[..1] == one && one[..0] == [];
    assert Concat(one) == "" + x;
  }

  lemma Cancel(before: string, x: string, y: string, after: string)
    requires before + x + after == before + y + after
    ensures x == y
  {
    assert |x| == |y|;
    assert x == (before + x + after)[|before|..|before| + |x|];
    assert y == (before + y + after)[|before|..|before| + |y|];
  }

  /** What combines to a text combines to another one with two different marked neighbours exchanged. */
  lemma SwappedResults(results: seq<Result<string, HeaderError>>, m: nat, c: char, tail: string)
    requires m + 1 < |results| && Combining(results).Ok? && results[m] != results[m + 1]
    requires forall i :: 0 <= i < |results| && results[i].Ok? ==> Marked(results[i].value, c, tail)
    ensures Combining(Swapped(results, m)).Ok? && Combining(Swapped(results, m)) != Combining(results)
  {
    CombinedIff(results);
    var texts := Combined(results).value;
    CombinedValues(results, texts);
    forall i | 0 <= i < |results|
      ensures Swapped(results, m)[i] == Ok(Swapped(texts, m)[i])
    {
      var j := if i == m then m + 1 else if i == m + 1 then m else i;
      assert Swapped(results, m)[i] == results[j] && Swapped(texts, m)[i] == texts[j];
    }
    CombinedValues(Swapped(results, m), Swapped(texts, m));
    assert results[m] == Ok(texts[m]) && results[m + 1] == Ok(texts[m + 1]);
    SwappedConcat(texts, Swapped(texts, m), m, c, tail);
    assert Combining(results) == Ok(Concat(texts));
    assert Combining(Swapped(results, m)) == Ok(Concat(Swapped(texts, m)));
    assert Concat(texts) != Concat(Swapped(texts, m));
  }

  lemma SwappedFunctionTexts(functions: seq<CFunction>, scope: Scope, m: nat)
    requires forall f :: f in functions ==> PlainFunction(f)
    requires m + 1 < |functions| && FunctionText(functions[m], scope) != FunctionText(functions[m + 1], scope)
    requires FunctionTexts(functions, scope).Ok?
    ensures FunctionTexts(Swapped(functions, m), scope).Ok?
    ensures FunctionTexts(Swapped(functions, m), scope) != FunctionTexts(functions, scope)
  {
    var results := FunctionResults(functions, scope);
    forall i | 0 <= i < |results|
      ensures results[i].Ok? ==> Marked(results[i].value, '\n', "")
    {
      if results[i].Ok? {
        FunctionIsMarked(functions[i], scope);
      }
    }
    assert FunctionResults(Swapped(functions, m), scope) == Swapped(results, m);
    FunctionTextsCombine(functions, scope);
    FunctionTextsCombine(Swapped(functions, m), scope);
    SwappedResults(results, m, '\n', "");
  }

  lemma SwappedStructTexts(structs: seq<CStruct>, scope: Scope, m: nat)
    requires forall item :: item in structs ==> PlainStruct(item)
    requires m + 1 < |structs| && StructText(structs[m], scope) != StructText(structs[m + 1], scope)
    requires StructTexts(structs, scope).Ok?
    ensures StructTexts(Swapped(structs, m), scope).Ok?
    ensures StructTexts(Swapped(structs, m), scope) != StructTexts(structs, scope)
  {
    var results := StructResults(structs, scope);
    forall i | 0 <= i < |results|
      ensures results[i].Ok? ==> Marked(results[i].value, '}', "\n\n")
    {
      if results[i].Ok? {
        StructIsMarked(structs[i], scope);
      }
    }
    assert StructResults(Swapped(structs, m), scope) == Swapped(results, m);
    StructTextsCombine(structs, scope);
    StructTextsCombine(Swapped(structs, m), scope);
    SwappedResults(results, m, '}', "\n\n");
  }

  function Before(package: string, h: Headers): string {
    "package " + package + "\n\n"
    + OpaqueLines(h.opaqueTypes, ReleasesIn(h)) + (if h.opaqueTypes == [] then "" else "\n")
  }

  function After(h: Headers, functions: string): string {
    if h.functions == [] then "" else "extern \"C\" {\n" + functions + "}\n"
  }

  lemma RenderedFrom(package: string, h: Headers)
    ensures RenderedIn(package, h).Ok? <==>
      StructTexts(h.structs, ScopeIn(h)).Ok? && FunctionTexts(h.functions, ScopeIn(h)).Ok?
    ensures RenderedIn(package, h).Ok? ==>
      RenderedIn(package, h).value == Before(package, h) + StructTexts(h.structs, ScopeIn(h)).value
        + After(h, FunctionTexts(h.functions, ScopeIn(h)).value)
  {
  }

  lemma DifferentFunctionsShow(package: string, h: Headers, h': Headers)
    requires RenderedIn(package, h).Ok? && RenderedIn(package, h').Ok?
    requires h == h'.(functions := h.functions) && h.functions != [] && h'.functions != []
    requires ReleasesIn(h) == ReleasesIn(h') && ScopeIn(h) == ScopeIn(h')
    requires FunctionTexts(h.functions, ScopeIn(h)) != FunctionTexts(h'.functions, ScopeIn(h))
    ensures RenderedIn(package, h') != RenderedIn(package, h)
  {
    RenderedFrom(package, h);
    RenderedFrom(package, h');
    var before := Before(package, h) + StructTexts(h.structs, ScopeIn(h)).value;
    var x, y := FunctionTexts(h.functions, ScopeIn(h)).value, FunctionTexts(h'.functions, ScopeIn(h)).value;
    if before + After(h, x) == before + After(h', y) {
      assert before + After(h, x) + "" == before + After(h, x) && before + After(h', y) + "" == before + After(h', y);
      Cancel(before, After(h, x), After(h', y), "");
      Cancel("extern \"C\" {\n", x, y, "}\n");
    }
  }

  lemma DifferentStructsShow(package: string, h: Headers, h': Headers)
    requires RenderedIn(package, h).Ok? && RenderedIn(package, h').Ok?
    requires h == h'.(structs := h.structs)
    requires ReleasesIn(h) == ReleasesIn(h') && ScopeIn(h) == ScopeIn(h')
    requires StructTexts(h.structs, ScopeIn(h)) != StructTexts(h'.structs, ScopeIn(h))
    ensures RenderedIn(package, h') != RenderedIn(package, h)
  {
    RenderedFrom(package, h);
    RenderedFrom(package, h');
    var x, y := StructTexts(h.structs, ScopeIn(h)).value, StructTexts(h'.structs, ScopeIn(h)).value;
    var after := After(h, FunctionTexts(h.functions, ScopeIn(h)).value);
    if Before(package, h) + x + after == Before(package, h) + y + after {
      Cancel(Before(package, h), x, y, after);
    }
  }

  lemma SwappedFunctionNames(functions: seq<CFunction>, m: nat)
    requires m + 1 < |functions| && functions[m].name == functions[m + 1].name
    ensures FunctionNames(Swapped(functions, m)) == FunctionNames(functions)
  {
  }

  lemma SwappedStructNames(structs: seq<CStruct>, m: nat)
    requires m + 1 < |structs| && structs[m].name == structs[m + 1].name
    ensures StructNames(Swapped(structs, m)) == StructNames(structs)
  {
  }

  lemma SwappedFunctionsAreRearranged(h: Headers, m: nat)
    requires InOrder(h) && m + 1 < |h.functions| && h.functions[m].name == h.functions[m + 1].name
    ensures Rearranged(h, h.(functions := Swapped(h.functions, m)))
  {
    SwappedFunctionNames(h.functions, m);
  }

  lemma SwappedStructsAreRearranged(h: Headers, m: nat)
    requires InOrder(h) && m + 1 < |h.structs| && h.structs[m].name == h.structs[m + 1].name
    ensures Rearranged(h, h.(structs := Swapped(h.structs, m)))
  {
    SwappedStructNames(h.structs, m);
  }

  lemma SwappedFunctionsShow(package: string, h: Headers, m: nat, scope: Scope) returns (h': Headers)
    requires PlainHeaders(h) && InOrder(h) && RenderedIn(package, h).Ok? && scope == ScopeIn(h)
    requires m + 1 < |h.functions| && h.functions[m].name == h.functions[m + 1].name
    requires FunctionText(h.functions[m], scope) != FunctionText(h.functions[m + 1], scope)
    ensures Rearranged(h, h') && RenderedIn(package, h').Ok? && RenderedIn(package, h') != RenderedIn(package, h)
  {
    h' := h.(functions := Swapped(h.functions, m));
    SwappedFunctionsAreRearranged(h, m);
    ScopeForgetsOrder(h, h');
    OkInAnyOrder(package, h, h');
    RenderedFrom(package, h);
    SwappedFunctionTexts(h.functions, scope, m);
    DifferentFunctionsShow(package, h, h');
  }

  lemma SwappedStructsShow(package: string, h: Headers, m: nat, scope: Scope) returns (h': Headers)
    requires PlainHeaders(h) && InOrder(h) && RenderedIn(package, h).Ok? && scope == ScopeIn(h)
    requires m + 1 < |h.structs| && h.structs[m].name == h.structs[m + 1].name
    requires StructText(h.structs[m], scope) != StructText(h.structs[m + 1], scope)
    ensures Rearranged(h, h') && RenderedIn(package, h').Ok? && RenderedIn(package, h') != RenderedIn(package, h)
  {
    h' := h.(structs := Swapped(h.structs, m));
    SwappedStructsAreRearranged(h, m);
    ScopeForgetsOrder(h, h');
    OkInAnyOrder(package, h, h');
    RenderedFrom(package, h);
    SwappedStructTexts(h.structs, scope, m);
    DifferentStructsShow(package, h, h');
  }

  /** Two different results under one name. */
  ghost predicate DifferAt<T>(names: seq<string>, results: seq<T>, i: nat, j: nat)
    requires |results| == |names| && i < |names| && j < |names|
  {
    names[i] == names[j] && results[i] != results[j]
  }

  lemma EqualBetween(names: seq<string>, i: nat, k: nat, j: nat)
    requires i <= k <= j < |names| && Sorted(StringLeq, names) && names[i] == names[j]
    ensures names[k] == names[i]
  {
    if i < k < j {
      assert StringLeq(names[i], names[k]) && StringLeq(names[k], names[j]);
      StringLeqAntisymmetric(names[i], names[k]);
    }
  }

  /** Somewhere between different results under one name, one gives way to the next. */
  lemma {:induction false} SomeNeighboursDiffer<T>(names: seq<string>, results: seq<T>, i: nat, j: nat) returns (m: nat)
    requires |results| == |names| && i < j < |names| && results[i] != results[j]
    requires forall k :: i <= k <= j ==> names[k] == names[j]
    ensures i <= m < j && DifferAt(names, results, m, m + 1)
    decreases j - i
  {
    if results[i] != results[i + 1] {
      m := i;
    } else {
      m := SomeNeighboursDiffer(names, results, i + 1, j);
    }
  }

  lemma NeighboursDiffer<T>(names: seq<string>, results: seq<T>, i: nat, j: nat) returns (m: nat)
    requires |results| == |names| && i < |names| && j < |names| && Sorted(StringLeq, names)
    requires DifferAt(names, results, i, j)
    ensures m + 1 < |names| && DifferAt(names, results, m, m + 1)
  {
    var low, high := if i < j then i else j, if i < j then j else i;
    forall k | low <= k <= high
      ensures names[k] == names[high]
    {
      EqualBetween(names, low, k, high);
    }
    m := SomeNeighboursDiffer(names, results, low, high);
  }

  lemma FunctionsDiffer(h: Headers, scope: Scope) returns (i: nat, j: nat)
    requires !FunctionsAlike(h) && scope == ScopeIn(h)
    ensures i < |h.functions| && j < |h.functions|
    ensures DifferAt(FunctionNames(h.functions), FunctionResults(h.functions, scope), i, j)
  {
    var f, g :|
      && f in h.functions && g in h.functions && f.name == g.name && FunctionText(f, scope) != FunctionText(g, scope);
    i :| 0 <= i < |h.functions| && h.functions[i] == f;
    j :| 0 <= j < |h.functions| && h.functions[j] == g;
  }

  lemma StructsDiffer(h: Headers, scope: Scope) returns (i: nat, j: nat)
    requires !StructsAlike(h) && scope == ScopeIn(h)
    ensures i < |h.structs| && j < |h.structs|
    ensures DifferAt(StructNames(h.structs), StructResults(h.structs, scope), i, j)
  {
    var x, y :|
      && x in h.structs && y in h.structs && x.name == y.name && StructText(x, scope) != StructText(y, scope);
    i :| 0 <= i < |h.structs| && h.structs[i] == x;
    j :| 0 <= j < |h.structs| && h.structs[j] == y;
  }

  /** If two namesakes are rendered differently, some rearrangement is rendered differently. */
  lemma UnlikeNamesakesShow(package: string, h: Headers) returns (h': Headers)
    requires PlainHeaders(h) && InOrder(h) && RenderedIn(package, h).Ok? && !NamesakesAlike(h)
    ensures Rearranged(h, h') && RenderedIn(package, h').Ok? && RenderedIn(package, h') != RenderedIn(package, h)
  {
    var scope := ScopeIn(h);
    if FunctionsAlike(h) {
      var i, j := StructsDiffer(h, scope);
      var m := NeighboursDiffer(StructNames(h.structs), StructResults(h.structs, scope), i, j);
      h' := SwappedStructsShow(package, h, m, scope);
    } else {
      var i, j := FunctionsDiffer(h, scope);
      var m := NeighboursDiffer(FunctionNames(h.functions), FunctionResults(h.functions, scope), i, j);
      h' := SwappedFunctionsShow(package, h, m, scope);
    }
  }

  // ----- Every rearrangement comes from some order of the declarations -----

  /** Declarations that are neither structs nor functions. */
  function Others(declared: seq<Declared>): seq<Declared> {
    if declared == [] then []
    else
      var n := |declared| - 1;
      Others(declared[..n]) + (if declared[n].Struct? || declared[n].Function? then [] else [declared[n]])
  }

  function AsStructs(structs: seq<CStruct>): seq<Declared> {
    if structs == [] then [] else AsStructs(structs[..|structs| - 1]) + [Struct(structs[|structs| - 1])]
  }

  function AsFunctions(functions: seq<CFunction>): seq<Declared> {
    if functions == [] then [] else AsFunctions(functions[..|functions| - 1]) + [Function(functions[|functions| - 1])]
  }

  /** The declarations with the structs and functions in a given order after the others. */
  function Arranged(declared: seq<Declared>, h: Headers): seq<Declared> {
    Others(declared) + AsStructs(h.structs) + AsFunctions(h.functions)
  }

  lemma {:induction false} OthersCount(declared: seq<Declared>, d: Declared)
    ensures multiset(Others(declared))[d] == if d.Struct? || d.Function? then 0 else multiset(declared)[d]
  {
    if declared != [] {
      var n := |declared| - 1;
      OthersCount(declared[..n], d);
      assert declared == declared[..n] + [declared[n]];
    }
  }

  lemma {:induction false} AsStructsCount(structs: seq<CStruct>, d: Declared)
    ensures multiset(AsStructs(structs))[d] == if d.Struct? then multiset(structs)[d.cstruct] else 0
  {
    if structs != [] {
      var n := |structs| - 1;
      AsStructsCount(structs[..n], d);
      assert structs == structs[..n] + [structs[n]];
    }
  }

  lemma {:induction false} AsFunctionsCount(functions: seq<CFunction>, d: Declared)
    ensures multiset(AsFunctions(functions))[d] == if d.Function? then multiset(functions)[d.cfunction] else 0
  {
    if functions != [] {
      var n := |functions| - 1;
      AsFunctionsCount(functions[..n], d);
      assert functions == functions[..n] + [functions[n]];
    }
  }

  lemma ArrangedIsAPermutation(declared: seq<Declared>, h: Headers)
    requires multiset(h.structs) == multiset(Gathered(declared).structs)
    requires multiset(h.functions) == multiset(Gathered(declared).functions)
    ensures multiset(Arranged(declared, h)) == multiset(declared)
  {
    forall d
      ensures multiset(Arranged(declared, h))[d] == multiset(declared)[d]
    {
      OthersCount(declared, d);
      AsStructsCount(h.structs, d);
      AsFunctionsCount(h.functions, d);
      if d.Struct? {
        StructCount(declared, d.cstruct);
      }
      if d.Function? {
        FunctionCount(declared, d.cfunction);
      }
    }
  }

  lemma {:induction false} GatheredOthers(declared: seq<Declared>)
    ensures Gathered(Others(declared)).structs == [] && Gathered(Others(declared)).functions == []
  {
    if declared != [] {
      var n := |declared| - 1;
      GatheredOthers(declared[..n]);
      GatheredNext(Others(declared[..n]), Others(declared[..n]) + [declared[n]], declared[n]);
      assert Others(declared[..n]) + [] == Others(declared[..n]);
    }
  }

  lemma {:induction false} GatheredStructs(before: seq<Declared>, structs: seq<CStruct>)
    ensures var h := Gathered(before + AsStructs(structs));
      h.structs == Gathered(before).structs + structs && h.functions == Gathered(before).functions
    decreases |structs|
  {
    if structs == [] {
      assert before + AsStructs(structs) == before;
    } else {
      var n := |structs| - 1;
      GatheredStructs(before, structs[..n]);
      assert structs == structs[..n] + [structs[n]];
      OneMoreStruct(
        before + AsStructs(structs[..n]), before + AsStructs(structs), Gathered(before), structs[..n], structs,
        structs[n]);
    }
  }

  lemma OneMoreStruct(
    front: seq<Declared>, all: seq<Declared>, h: Headers, done: seq<CStruct>, structs: seq<CStruct>, last: CStruct)
    requires all == front + [Struct(last)] && structs == done + [last]
    requires Gathered(front).structs == h.structs + done && Gathered(front).functions == h.functions
    ensures Gathered(all).structs == h.structs + structs && Gathered(all).functions == h.functions
  {
    GatheredNext(front, all, Struct(last));
    assert h.structs + structs == h.structs + done + [last];
  }

  lemma {:induction false} GatheredFunctions(before: seq<Declared>, functions: seq<CFunction>)
    ensures var h := Gathered(before + AsFunctions(functions));
      h.functions == Gathered(before).functions + functions && h.structs == Gathered(before).structs
    decreases |functions|
  {
    if functions == [] {
      assert before + AsFunctions(functions) == before;
    } else {
      var n := |functions| - 1;
      GatheredFunctions(before, functions[..n]);
      assert functions == functions[..n] + [functions[n]];
      OneMoreFunction(
        before + AsFunctions(functions[..n]), before + AsFunctions(functions), Gathered(before), functions[..n],
        functions, functions[n]);
    }
  }

  lemma OneMoreFunction(
    front: seq<Declared>, all: seq<Declared>, h: Headers, done: seq<CFunction>, functions: seq<CFunction>,
    last: CFunction)
    requires all == front + [Function(last)] && functions == done + [last]
    requires Gathered(front).functions == h.functions + done && Gathered(front).structs == h.structs
    ensures Gathered(all).functions == h.functions + functions && Gathered(all).structs == h.structs
  {
    GatheredNext(front, all, Function(last));
    assert h.functions + functions == h.functions + done + [last];
  }

  lemma InOrderIsSorted(h: Headers)
    requires InOrder(h)
    ensures Sorted(ByFunctionName(), h.functions) && Sorted(ByStructName(), h.structs)
  {
    forall i, j | 0 <= i < j < |h.functions|
      ensures ByFunctionName()(h.functions[i], h.functions[j])
    {
      assert StringLeq(FunctionNames(h.functions)[i], FunctionNames(h.functions)[j]);
    }
    forall i, j | 0 <= i < j < |h.structs|
      ensures ByStructName()(h.structs[i], h.structs[j])
    {
      assert StringLeq(StructNames(h.structs)[i], StructNames(h.structs)[j]);
    }
  }

  lemma ArrangedIsGathered(declared: seq<Declared>, h: Headers)
    ensures Gathered(Arranged(declared, h)).structs == h.structs
    ensures Gathered(Arranged(declared, h)).functions == h.functions
  {
    GatheredOthers(declared);
    GatheredStructs(Others(declared), h.structs);
    GatheredFunctions(Others(declared) + AsStructs(h.structs), h.functions);
  }

  /** Any rearrangement is what some order of the same declarations is collected to. */
  lemma ArrangedIsCollected(declared: seq<Declared>, h: Headers, arranged: seq<Declared>)
    requires Rearranged(HeadersOf(declared), h) && arranged == Arranged(declared, h)
    ensures multiset(arranged) == multiset(declared) && HeadersOf(arranged) == h
  {
    ArrangedIsAPermutation(declared, h);
    GatheredForgetsOrder(declared, arranged);
    ArrangedIsGathered(declared, h);
    InOrderIsSorted(h);
    SortOfSorted(ByFunctionName(), h.functions);
    SortOfSorted(ByStructName(), h.structs);
  }
}
