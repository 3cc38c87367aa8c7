/** The memoising layout engine and its agreement with the definition that remembers nothing. */
module LayoutEngine {
  import opened Wrappers
  import opened StructLayouts
  import opened LayoutSuccess

  /** Cached layouts are right, and so is everything they were computed from. */
  ghost predicate CacheSound(p: Program, cache: map<string, StructLayout>) {
    && (forall n :: n in cache ==> LayoutOf(p, n, {}) == Ok(cache[n]))
    && (forall n, inner :: n in cache && Embeds(p, n, inner) ==> inner in cache)
  }

  lemma CacheHoldsStep(p: Program, cache: map<string, StructLayout>, path: seq<string>, rest: seq<string>)
    requires CacheSound(p, cache) && Path(p, path) && path[0] in cache && |path| > 1 && rest == path[1..]
    ensures Path(p, rest) && rest[0] in cache
  {
    assert Embeds(p, path[0], path[1]);
    forall n | 0 < n < |rest|
      ensures Embeds(p, rest[n - 1], rest[n])
    {
      assert Embeds(p, path[n], path[n + 1]);
    }
  }

  lemma {:induction false} CacheHoldsPath(p: Program, cache: map<string, StructLayout>, path: seq<string>)
    requires CacheSound(p, cache) && Path(p, path) && path[0] in cache
    ensures path[|path| - 1] in cache
    decreases |path|
  {
    if |path| > 1 {
      CacheHoldsStep(p, cache, path, path[1..]);
      CacheHoldsPath(p, cache, path[1..]);
    }
  }

  /** A cached layout is the right answer wherever none of the structs in progress is cached. */
  lemma HitIsRight(p: Program, cache: map<string, StructLayout>, name: string, visiting: set<string>)
    requires CacheSound(p, cache) && name in cache && cache.Keys !! visiting
    ensures LayoutOf(p, name, visiting) == Ok(cache[name])
  {
    forall inner | Reachable(p, name, inner)
      ensures inner !in visiting
    {
      var path :| PathFrom(p, name, path) && path[|path| - 1] == inner;
      CacheHoldsPath(p, cache, path);
    }
    SuccessIgnoresVisiting(p, name, {}, visiting);
  }

  /** A finished layout may join the cache once the structs it embeds are there. */
  lemma FinishedLayoutMayBeCached(
    p: Program, cache: map<string, StructLayout>, name: string, visiting: set<string>, layout: StructLayout)
    requires CacheSound(p, cache) && LayoutOf(p, name, visiting) == Ok(layout)
    requires forall inner :: Embeds(p, name, inner) ==> inner in cache
    ensures CacheSound(p, cache[name := layout])
  {
    SuccessIgnoresVisiting(p, name, visiting, {});
  }

  lemma {:induction false} FirstErrorStands(p: Program, fields: seq<StructField>, visiting: set<string>, n: nat)
    requires n <= |fields| && Measures(p, fields[..n], visiting).Err?
    ensures Measures(p, fields, visiting) == Measures(p, fields[..n], visiting)
    decreases |fields|
  {
    if n == |fields| {
      assert fields[..n] == fields;
    } else {
      var m := |fields| - 1;
      assert fields[..m][..n] == fields[..n];
      FirstErrorStands(p, fields[..m], visiting, n);
    }
  }

  /** The field loop after `n` fields: running offset and alignment, and the fields placed so far. */
  ghost predicate Midway(
    p: Program, fields: seq<StructField>, n: nat, visiting: set<string>,
    offset: nat, structAlign: nat, placed: seq<FieldLayout>)
  {
    && n <= |fields|
    && var r := Measures(p, fields[..n], visiting);
    && r.Ok?
    && offset == End(r.value)
    && structAlign == MaxAlign(r.value)
    && placed == Placed(fields[..n], r.value)
  }

  lemma MidwayStep(
    p: Program, fields: seq<StructField>, n: nat, visiting: set<string>,
    offset: nat, structAlign: nat, placed: seq<FieldLayout>, m: Measure)
    requires Midway(p, fields, n, visiting, offset, structAlign, placed) && n < |fields|
    requires MeasureOf(p, fields[n].valueType, visiting) == Ok(m)
    ensures m.align > 0
    ensures var at := AlignUp(offset, m.align);
      Midway(p, fields, n + 1, visiting, at + m.size,
             if structAlign < m.align then m.align else structAlign,
             placed + [FieldLayout(fields[n].name, at, m.size, m.align)])
  {
    assert fields[..n + 1][..n] == fields[..n];
    var ms := Measures(p, fields[..n], visiting).value;
    var longer := ms + [m];
    assert longer[..n] == ms;
    assert Measures(p, fields[..n + 1], visiting) == Ok(longer);
  }

  lemma MidwayError(p: Program, fields: seq<StructField>, n: nat, visiting: set<string>)
    requires n < |fields| && Measures(p, fields[..n], visiting).Ok?
    requires MeasureOf(p, fields[n].valueType, visiting).Err?
    ensures Measures(p, fields, visiting) == Err(MeasureOf(p, fields[n].valueType, visiting).error)
  {
    assert fields[..n + 1][..n] == fields[..n];
    FirstErrorStands(p, fields, visiting, n + 1);
  }

  /** The structs embedded by the first `n` fields are cached. */
  ghost predicate ChildrenCached(items: seq<StructField>, n: nat, cached: set<string>) {
    n <= |items| && forall i :: 0 <= i < n && items[i].valueType.Struct? ==> items[i].valueType.name in cached
  }

  lemma OneMoreChild(items: seq<StructField>, n: nat, before: set<string>, after: set<string>)
    requires ChildrenCached(items, n, before) && n < |items| && before <= after
    requires items[n].valueType.Struct? ==> items[n].valueType.name in after
    ensures ChildrenCached(items, n + 1, after)
  {
  }

  lemma AllChildrenCached(p: Program, name: string, cached: set<string>)
    requires name in p.structs && ChildrenCached(p.structs[name].fields, |p.structs[name].fields|, cached)
    ensures forall inner :: Embeds(p, name, inner) ==> inner in cached
  {
  }

  class Engine {
    const p: Program
    var cache: map<string, StructLayout>
    var visiting: set<string>

    ghost predicate Valid()
      reads this
    {
      CacheSound(p, cache) && cache.Keys !! visiting
    }

    constructor (p: Program)
      ensures Valid() && this.p == p && visiting == {}
    {
      this.p, cache, visiting := p, map[], {};
    }

    method ComputeStructLayout(name: string) returns (r: Result<StructLayout, LayoutError>)
      requires Valid()
      modifies this
      ensures r == LayoutOf(p, name, old(visiting))
      ensures CacheSound(p, cache) && old(cache.Keys) <= cache.Keys
      ensures r.Ok? ==> Valid() && visiting == old(visiting) && name in cache
      decreases p.structs.Keys - visiting, 0
    {
      if name in cache {
        HitIsRight(p, cache, name, visiting);
        return Ok(cache[name]);
      }
      if name !in p.reprC {
        return Err(NotReprC(name));
      }
      if name !in p.structs {
        return Err(UnknownStruct(name));
      }
      var item := p.structs[name];
      if item.typeParams != [] {
        return Err(GenericDeclaration(name));
      }
      if item.fields == [] {
        return Err(EmptyDeclaration(name));
      }
      if name in visiting {
        return Err(RecursiveLayout(name));
      }
      visiting := visiting + {name};
      var body := PlaceFields(name, item.fields);
      if body.Err? {
        return Err(body.error);
      }
      visiting := visiting - {name};
      var (offset, structAlign, fields) := body.value;
      var layout := StructLayout(name, AlignUp(offset, structAlign), structAlign, fields);
      FinishedLayoutMayBeCached(p, cache, name, visiting, layout);
      cache := cache[name := layout];
      r := Ok(layout);
    }

    /** The loop over the fields of `name`, which is in progress. */
    method PlaceFields(name: string, items: seq<StructField>)
      returns (r: Result<(nat, nat, seq<FieldLayout>), LayoutError>)
      requires Valid() && Complaint(p, name).None? && items == p.structs[name].fields && name in visiting
      modifies this
      ensures CacheSound(p, cache) && old(cache.Keys) <= cache.Keys
      ensures match Measures(p, items, old(visiting))
        case Err(error) => r == Err(error)
        case Ok(ms) => r == Ok((End(ms), MaxAlign(ms), Placed(items, ms)))
      ensures r.Ok? ==> Valid() && visiting == old(visiting)
      ensures r.Ok? ==> forall inner :: Embeds(p, name, inner) ==> inner in cache
      decreases p.structs.Keys - visiting, 2
    {
      var offset: nat, structAlign: nat, fields: seq<FieldLayout> := 0, 1, [];
      for n := 0 to |items|
        invariant Valid() && visiting == old(visiting) && old(cache.Keys) <= cache.Keys
        invariant Midway(p, items, n, visiting, offset, structAlign, fields)
        invariant ChildrenCached(items, n, cache.Keys)
      {
        ghost var known := cache.Keys;
        var m := CTypeLayout(items[n].valueType);
        if m.Err? {
          MidwayError(p, items, n, old(visiting));
          return Err(m.error);
        }
        OneMoreChild(items, n, known, cache.Keys);
        MidwayStep(p, items, n, visiting, offset, structAlign, fields, m.value);
        offset := AlignUp(offset, m.value.align);
        fields := fields + [FieldLayout(items[n].name, offset, m.value.size, m.value.align)];
        offset := offset + m.value.size;
        structAlign := if structAlign < m.value.align then m.value.align else structAlign;
      }
      assert items[..|items|] == items;
      AllChildrenCached(p, name, cache.Keys);
      r := Ok((offset, structAlign, fields));
    }

    method CTypeLayout(valueType: ValueType) returns (r: Result<Measure, LayoutError>)
      requires Valid()
      modifies this
      ensures r == MeasureOf(p, valueType, old(visiting))
      ensures CacheSound(p, cache) && old(cache.Keys) <= cache.Keys
      ensures r.Ok? ==> Valid() && visiting == old(visiting)
      ensures r.Ok? && valueType.Struct? ==> valueType.name in cache
      decreases p.structs.Keys - visiting, 1
    {
      var fixed := Fixed(p, valueType);
      if fixed.Some? {
        return Ok(fixed.value);
      }
      if valueType.Struct? {
        if valueType.args != [] {
          return Err(GenericUse(valueType.name));
        }
        var layout := ComputeStructLayout(valueType.name);
        if layout.Err? {
          return Err(layout.error);
        }
        return Ok(Measure(layout.value.size, layout.value.align));
      }
      r := Err(UnsupportedType(valueType));
    }
  }

  /** The entry point: declarations as a list, an empty cache, nothing in progress. */
  method ComputeReprCLayout(
    name: string, structs: seq<StructType>, reprC: set<string>, pointerBytes: PointerBytes)
    returns (r: Result<StructLayout, LayoutError>)
    ensures r == LayoutOf(Program(Declared(structs), reprC, pointerBytes), name, {})
    ensures var p := Program(Declared(structs), reprC, pointerBytes);
      r.Ok? <==> (forall inner :: Reachable(p, name, inner) ==> GoodDeclaration(p, inner)) && AcyclicFrom(p, name)
    ensures r.Err? ==> HasFault(Program(Declared(structs), reprC, pointerBytes), name, r.error)
  {
    var p := Program(Declared(structs), reprC, pointerBytes);
    var engine := new Engine(p);
    r := engine.ComputeStructLayout(name);
    SuccessIffWellFormedAndAcyclic(p, name);
    if r.Err? {
      FailureNamesAFault(p, name);
    }
  }
}
