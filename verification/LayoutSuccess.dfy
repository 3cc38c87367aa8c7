/** Layout succeeds exactly on well-formed, acyclic declarations. */
module LayoutSuccess {
  import opened Wrappers
  import opened StructLayouts

  /** `inner` is the type of a by-value field of `outer`. */
  ghost predicate Embeds(p: Program, outer: string, inner: string) {
    outer in p.structs && exists f :: f in p.structs[outer].fields && f.valueType == Struct(inner, [])
  }

  ghost predicate Path(p: Program, path: seq<string>) {
    path != [] && forall n :: 0 < n < |path| ==> Embeds(p, path[n - 1], path[n])
  }

  ghost predicate PathFrom(p: Program, root: string, path: seq<string>) {
    Path(p, path) && path[0] == root
  }

  ghost predicate Reachable(p: Program, root: string, name: string) {
    exists path :: PathFrom(p, root, path) && path[|path| - 1] == name
  }

  /** Numbers, characters, truth values, and the handles that are plain pointers. An owned handle is none. */
  predicate IsScalar(valueType: ValueType) {
    || valueType.Int? || valueType.I32? || valueType.U32? || valueType.U64?
    || valueType.Float? || valueType.Char? || valueType.Bool?
    || valueType.Opaque? || valueType.OpaqueHandle? || valueType.BorrowedHandle? || valueType.Nullable?
  }

  predicate Supported(valueType: ValueType) {
    IsScalar(valueType) || (valueType.Struct? && valueType.args == [])
  }

  /** Declared `repr(C)`, known, neither generic nor empty. */
  ghost predicate GoodHeader(p: Program, name: string) {
    name in p.reprC && name in p.structs && p.structs[name].typeParams == [] && p.structs[name].fields != []
  }

  /** And every field is of a supported type. */
  ghost predicate GoodDeclaration(p: Program, name: string) {
    GoodHeader(p, name) && forall f :: f in p.structs[name].fields ==> Supported(f.valueType)
  }

  lemma FixedIffScalar(p: Program, valueType: ValueType)
    ensures Fixed(p, valueType).Some? <==> IsScalar(valueType)
  {
  }

  lemma NoComplaintIff(p: Program, name: string)
    ensures Complaint(p, name).None? <==> GoodHeader(p, name)
  {
  }

  ghost predicate Distinct(path: seq<string>) {
    forall i, j :: 0 <= i < j < |path| ==> path[i] != path[j]
  }

  /** No walk along by-value fields from `root` meets a struct twice. */
  ghost predicate AcyclicFrom(p: Program, root: string) {
    forall path :: PathFrom(p, root, path) ==> Distinct(path)
  }

  /** Every walk from `root` stays on good declarations, avoids `visiting` and repeats nothing. */
  ghost predicate ClearFrom(p: Program, root: string, visiting: set<string>) {
    forall path :: PathFrom(p, root, path) ==>
      && Distinct(path)
      && forall n :: 0 <= n < |path| ==> path[n] !in visiting && GoodDeclaration(p, path[n])
  }

  lemma LastField(fields: seq<StructField>)
    requires fields != []
    ensures forall f :: f in fields <==> f in fields[..|fields| - 1] || f == fields[|fields| - 1]
  {
    assert fields == fields[..|fields| - 1] + [fields[|fields| - 1]];
  }

  lemma {:induction false} MeasuredFieldsAreMeasured(p: Program, fields: seq<StructField>, visiting: set<string>)
    ensures Measures(p, fields, visiting).Ok? <==>
      forall f :: f in fields ==> MeasureOf(p, f.valueType, visiting).Ok?
    decreases |fields|
  {
    if fields != [] {
      var m := |fields| - 1;
      MeasuredFieldsAreMeasured(p, fields[..m], visiting);
      LastField(fields);
    }
  }

  /** The layout of a struct needs that of every struct it embeds. */
  lemma SuccessGoesDown(p: Program, root: string, visiting: set<string>, inner: string)
    requires LayoutOf(p, root, visiting).Ok? && Embeds(p, root, inner)
    ensures LayoutOf(p, inner, visiting + {root}).Ok?
  {
    var fields := p.structs[root].fields;
    MeasuredFieldsAreMeasured(p, fields, visiting + {root});
    var f :| f in fields && f.valueType == Struct(inner, []);
    assert MeasureOf(p, f.valueType, visiting + {root}).Ok?;
  }

  lemma SuccessIsGood(p: Program, root: string, visiting: set<string>)
    requires LayoutOf(p, root, visiting).Ok?
    ensures root !in visiting && GoodDeclaration(p, root)
  {
    MeasuredFieldsAreMeasured(p, p.structs[root].fields, visiting + {root});
  }

  lemma PathGoesDown(p: Program, root: string, path: seq<string>)
    requires PathFrom(p, root, path) && |path| > 1
    ensures Embeds(p, root, path[1]) && PathFrom(p, path[1], path[1..])
  {
    forall n | 0 < n < |path[1..]|
      ensures Embeds(p, path[1..][n - 1], path[1..][n])
    {
      assert Embeds(p, path[n + 1 - 1], path[n + 1]);
    }
    assert Embeds(p, path[1 - 1], path[1]);
  }

  /** A layout that succeeds has walked every path without trouble. */
  lemma {:induction false} SuccessIsClear(p: Program, root: string, visiting: set<string>, path: seq<string>)
    requires LayoutOf(p, root, visiting).Ok? && PathFrom(p, root, path)
    ensures Distinct(path)
    ensures forall n :: 0 <= n < |path| ==> path[n] !in visiting && GoodDeclaration(p, path[n])
    decreases |path|
  {
    SuccessIsGood(p, root, visiting);
    if |path| > 1 {
      PathGoesDown(p, root, path);
      SuccessGoesDown(p, root, visiting, path[1]);
      SuccessIsClear(p, path[1], visiting + {root}, path[1..]);
      assert forall n :: 0 < n < |path| ==> path[n] == path[1..][n - 1];
    }
  }

  lemma ClearBelow(p: Program, root: string, visiting: set<string>, inner: string)
    requires ClearFrom(p, root, visiting) && Embeds(p, root, inner)
    ensures ClearFrom(p, inner, visiting + {root})
  {
    forall path | PathFrom(p, inner, path)
      ensures Distinct(path)
      ensures forall n :: 0 <= n < |path| ==> path[n] !in visiting + {root} && GoodDeclaration(p, path[n])
    {
      var longer := [root] + path;
      assert PathFrom(p, root, longer);
      assert forall n :: 0 <= n < |path| ==> longer[n + 1] == path[n];
      forall i, j | 0 <= i < j < |path|
        ensures path[i] != path[j]
      {
        assert longer[i + 1] != longer[j + 1];
      }
      forall n | 0 <= n < |path|
        ensures path[n] !in visiting + {root} && GoodDeclaration(p, path[n])
      {
        assert longer[0] != longer[n + 1];
      }
    }
  }

  lemma {:induction false} ClearIsSuccess(p: Program, root: string, visiting: set<string>)
    requires ClearFrom(p, root, visiting)
    ensures LayoutOf(p, root, visiting).Ok?
    decreases p.structs.Keys - visiting
  {
    assert PathFrom(p, root, [root]);
    assert [root][0] !in visiting && GoodDeclaration(p, [root][0]);
    var fields := p.structs[root].fields;
    assert root in p.structs.Keys - visiting;
    forall f | f in fields
      ensures MeasureOf(p, f.valueType, visiting + {root}).Ok?
    {
      FixedIffScalar(p, f.valueType);
      if Fixed(p, f.valueType).None? {
        assert f.valueType == Struct(f.valueType.name, []);
        assert Embeds(p, root, f.valueType.name);
        ClearBelow(p, root, visiting, f.valueType.name);
        ClearIsSuccess(p, f.valueType.name, visiting + {root});
      }
    }
    MeasuredFieldsAreMeasured(p, fields, visiting + {root});
  }

  /** Success if and only if what is reachable by value is well formed and acyclic. */
  lemma SuccessIffWellFormedAndAcyclic(p: Program, root: string)
    ensures LayoutOf(p, root, {}).Ok? <==>
      (forall name :: Reachable(p, root, name) ==> GoodDeclaration(p, name)) && AcyclicFrom(p, root)
  {
    if LayoutOf(p, root, {}).Ok? {
      forall path | PathFrom(p, root, path)
        ensures Distinct(path) && GoodDeclaration(p, path[|path| - 1])
      {
        SuccessIsClear(p, root, {}, path);
      }
    }
    if (forall name :: Reachable(p, root, name) ==> GoodDeclaration(p, name)) && AcyclicFrom(p, root) {
      forall path | PathFrom(p, root, path)
        ensures forall n :: 0 <= n < |path| ==> path[n] !in {} && GoodDeclaration(p, path[n])
      {
        forall n | 0 <= n < |path|
          ensures GoodDeclaration(p, path[n])
        {
          assert PathFrom(p, root, path[..n + 1]) && path[..n + 1][n] == path[n];
          assert Reachable(p, root, path[n]);
        }
      }
      ClearIsSuccess(p, root, {});
    }
  }

  // ----- What is in progress only matters to structs that reach it -----

  /** A layout that succeeds does not depend on which unreachable structs are in progress. */
  lemma {:induction false} SuccessIgnoresVisiting(p: Program, root: string, v: set<string>, w: set<string>)
    requires LayoutOf(p, root, v).Ok?
    requires forall name :: Reachable(p, root, name) ==> name !in w
    ensures LayoutOf(p, root, w) == LayoutOf(p, root, v)
    decreases p.structs.Keys - v, 2
  {
    assert PathFrom(p, root, [root]) && [root][|[root]| - 1] == root;
    assert root in p.structs.Keys - v;
    var fields := p.structs[root].fields;
    forall inner, name | Embeds(p, root, inner) && Reachable(p, inner, name)
      ensures name !in w + {root}
    {
      var path :| PathFrom(p, inner, path) && path[|path| - 1] == name;
      var longer := [root] + path;
      assert PathFrom(p, root, longer) && longer[|longer| - 1] == name;
      SuccessIsClear(p, root, v, longer);
      assert longer[0] != longer[|longer| - 1];
    }
    FieldsIgnoreVisiting(p, root, fields, v, w);
  }

  lemma {:induction false} FieldsIgnoreVisiting(
    p: Program, root: string, fields: seq<StructField>, v: set<string>, w: set<string>)
    requires root in p.structs && root !in v
    requires forall f :: f in fields ==> f in p.structs[root].fields
    requires Measures(p, fields, v + {root}).Ok?
    requires forall inner, name :: Embeds(p, root, inner) && Reachable(p, inner, name) ==> name !in w + {root}
    ensures Measures(p, fields, w + {root}) == Measures(p, fields, v + {root})
    decreases p.structs.Keys - v, 1, |fields|
  {
    if fields != [] {
      var m := |fields| - 1;
      FieldsIgnoreVisiting(p, root, fields[..m], v, w);
      var valueType := fields[m].valueType;
      if Fixed(p, valueType).None? {
        assert valueType == Struct(valueType.name, []) && fields[m] in fields;
        assert Embeds(p, root, valueType.name);
        assert root in p.structs.Keys - v;
        SuccessIgnoresVisiting(p, valueType.name, v + {root}, w + {root});
      }
    }
  }

  // ----- What a failure means -----

  /** The first field that has no layout decides the error. */
  lemma {:induction false} FirstBadField(p: Program, fields: seq<StructField>, visiting: set<string>) returns (n: nat)
    requires Measures(p, fields, visiting).Err?
    ensures n < |fields|
    ensures MeasureOf(p, fields[n].valueType, visiting) == Err(Measures(p, fields, visiting).error)
    ensures forall k :: 0 <= k < n ==> MeasureOf(p, fields[k].valueType, visiting).Ok?
    decreases |fields|
  {
    var m := |fields| - 1;
    if Measures(p, fields[..m], visiting).Err? {
      n := FirstBadField(p, fields[..m], visiting);
      assert forall k :: 0 <= k <= n ==> fields[..m][k] == fields[k];
    } else {
      n := m;
      MeasuredFieldsAreMeasured(p, fields[..m], visiting);
      assert forall k :: 0 <= k < m ==> fields[k] in fields[..m] by {
        assert forall k :: 0 <= k < m ==> fields[..m][k] == fields[k];
      }
    }
  }

  /** The walk ends where it has been before. */
  ghost predicate Returns(path: seq<string>) {
    path != [] && path[|path| - 1] in path[..|path| - 1]
  }

  /** The walk from the root ends at a field of this type. */
  ghost predicate EndsAtField(p: Program, path: seq<string>, valueType: ValueType) {
    && path != [] && GoodHeader(p, path[|path| - 1])
    && exists f :: f in p.structs[path[|path| - 1]].fields && f.valueType == valueType
  }

  /** What is wrong at the end of the walk, tests in the order in which they are made. */
  ghost predicate Faulty(p: Program, path: seq<string>, error: LayoutError)
    requires path != []
  {
    var last := path[|path| - 1];
    match error
    case NotReprC(name) => name == last && name !in p.reprC
    case UnknownStruct(name) => name == last && name in p.reprC && name !in p.structs
    case GenericDeclaration(name) =>
      name == last && name in p.reprC && name in p.structs && p.structs[name].typeParams != []
    case EmptyDeclaration(name) =>
      && name == last && name in p.reprC && name in p.structs
      && p.structs[name].typeParams == [] && p.structs[name].fields == []
    case RecursiveLayout(name) => name == last && GoodHeader(p, name) && Returns(path)
    case GenericUse(name) => exists args :: args != [] && EndsAtField(p, path, ValueType.Struct(name, args))
    case UnsupportedType(valueType) =>
      !IsScalar(valueType) && !valueType.Struct? && EndsAtField(p, path, valueType)
  }

  ghost predicate HasFault(p: Program, root: string, error: LayoutError) {
    exists path :: PathFrom(p, root, path) && Faulty(p, path, error)
  }

  lemma OneStepFurther(p: Program, root: string, path: seq<string>, inner: string)
    requires PathFrom(p, root, path) && Embeds(p, path[|path| - 1], inner)
    ensures PathFrom(p, root, path + [inner])
  {
    var longer := path + [inner];
    forall n | 0 < n < |longer|
      ensures Embeds(p, longer[n - 1], longer[n])
    {
      if n < |path| {
        assert Embeds(p, path[n - 1], path[n]);
      }
    }
  }

  /** The structs in progress are those the walk came through. */
  ghost predicate CameThrough(path: seq<string>, visiting: set<string>) {
    path != [] && forall name :: name in visiting <==> name in path[..|path| - 1]
  }

  /** Wherever the walk has come to, an error met from there on is about a fault that is there. */
  lemma {:induction false} ErrorFromHere(p: Program, root: string, path: seq<string>, visiting: set<string>)
    requires PathFrom(p, root, path) && CameThrough(path, visiting)
    requires LayoutOf(p, path[|path| - 1], visiting).Err?
    ensures HasFault(p, root, LayoutOf(p, path[|path| - 1], visiting).error)
    decreases p.structs.Keys - visiting
  {
    var name := path[|path| - 1];
    if Complaint(p, name).Some? || name in visiting {
      assert Faulty(p, path, LayoutOf(p, name, visiting).error);
    } else {
      var fields := p.structs[name].fields;
      assert name in p.structs.Keys - visiting;
      var n := FirstBadField(p, fields, visiting + {name});
      ErrorInField(p, root, path, visiting, fields[n]);
    }
  }

  lemma ErrorInField(p: Program, root: string, path: seq<string>, visiting: set<string>, field: StructField)
    requires PathFrom(p, root, path) && CameThrough(path, visiting)
    requires var name := path[|path| - 1];
      GoodHeader(p, name) && name !in visiting && field in p.structs[name].fields
    requires MeasureOf(p, field.valueType, visiting + {path[|path| - 1]}).Err?
    ensures HasFault(p, root, MeasureOf(p, field.valueType, visiting + {path[|path| - 1]}).error)
    decreases p.structs.Keys - visiting, 0
  {
    var name, valueType := path[|path| - 1], field.valueType;
    FixedIffScalar(p, valueType);
    assert EndsAtField(p, path, valueType);
    if valueType.Struct? && valueType.args == [] {
      var longer := path + [valueType.name];
      assert valueType == ValueType.Struct(valueType.name, []);
      OneStepFurther(p, root, path, valueType.name);
      assert longer[..|longer| - 1] == path;
      assert path == path[..|path| - 1] + [name];
      assert name in p.structs.Keys - visiting;
      ErrorFromHere(p, root, longer, visiting + {name});
    } else if valueType.Struct? {
      assert valueType == ValueType.Struct(valueType.name, valueType.args);
      assert Faulty(p, path, GenericUse(valueType.name));
    } else {
      assert Faulty(p, path, UnsupportedType(valueType));
    }
  }

  /** A failure names a fault that a walk along by-value fields comes to. */
  lemma FailureNamesAFault(p: Program, root: string)
    requires LayoutOf(p, root, {}).Err?
    ensures HasFault(p, root, LayoutOf(p, root, {}).error)
  {
    assert PathFrom(p, root, [root]) && CameThrough([root], {});
    ErrorFromHere(p, root, [root], {});
  }

  // ----- The C types that scalars stand for -----

  /** The C type that the code generator spells for a value, where it is one of fixed width or a pointer. */
  function CTypeName(valueType: ValueType): Option<string> {
    match valueType
    case Int => Some("long long")
    case I32 => Some("int32_t")
    case U32 | Char => Some("uint32_t")
    case U64 => Some("uint64_t")
    case Float => Some("double")
    case Bool => Some("int")
    case Opaque | OpaqueHandle(_) | OwnedHandle(_) | BorrowedHandle(_) | Nullable(_) => Some("void *")
    case _ => None
  }

  /** What such a type occupies, in bytes. */
  function CWidth(name: string, pointerBytes: PointerBytes): Option<nat> {
    if name == "long long" || name == "uint64_t" || name == "double" then Some(8)
    else if name == "int32_t" || name == "uint32_t" || name == "int" then Some(4)
    else if name == "void *" then Some(pointerBytes)
    else None
  }

  /** A scalar takes the bytes of the C type it is compiled to, and is aligned to as many. */
  lemma ScalarsAreAsWideAsInC(p: Program, valueType: ValueType)
    ensures IsScalar(valueType) <==> CTypeName(valueType).Some? && !valueType.OwnedHandle?
    ensures IsScalar(valueType) ==>
      var width := CWidth(CTypeName(valueType).value, p.pointerBytes);
      width.Some? && Fixed(p, valueType) == Some(Measure(width.value, width.value))
  {
  }
}
