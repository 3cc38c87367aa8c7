/** Declarations of `repr(C)` structs and the layout each should get: a definition without any cache. */
module StructLayouts {
  import opened Wrappers

  const U64_LIMIT := 0x1_0000_0000_0000_0000

  datatype ValueType =
    | String | CString | Opaque
    | OpaqueHandle(name: string) | OwnedHandle(name: string) | BorrowedHandle(name: string)
    | Nullable(inner: ValueType)
    | ExternCallback(params: seq<ValueType>, returnType: ValueType)
    | TaskCallback(params: seq<ValueType>, returnType: ValueType)
    | Int | I32 | U32 | U64 | Float | Char | Bool
    | Array(inner: ValueType)
    | Struct(name: string, args: seq<ValueType>)
    | Enum(name: string, args: seq<ValueType>)
    | TypeParam(name: string)
    | Void | Never

  datatype StructField = StructField(name: string, valueType: ValueType)

  datatype StructType = StructType(name: string, typeParams: seq<string>, fields: seq<StructField>)

  datatype FieldLayout = FieldLayout(name: string, offset: nat, size: nat, align: nat)

  datatype StructLayout = StructLayout(name: string, size: nat, align: nat, fields: seq<FieldLayout>)

  datatype LayoutError =
    | NotReprC(name: string)
    | UnknownStruct(name: string)
    | GenericDeclaration(name: string)
    | EmptyDeclaration(name: string)
    | RecursiveLayout(name: string)
    | GenericUse(name: string)
    | UnsupportedType(valueType: ValueType)

  /** A pointer width of 32 or 64 bits, in bytes. */
  type PointerBytes = n: nat | n == 4 || n == 8 witness 8

  /** The declarations at hand and the target. */
  datatype Program = Program(structs: map<string, StructType>, reprC: set<string>, pointerBytes: PointerBytes)

  /** A later declaration of a name replaces an earlier one. */
  function Declared(structs: seq<StructType>): map<string, StructType> {
    if structs == [] then map[]
    else
      var last := structs[|structs| - 1];
      Declared(structs[..|structs| - 1])[last.name := last]
  }

  /** Of several declarations of a name the last one stands. */
  lemma {:induction false} LastDeclarationStands(structs: seq<StructType>, name: string) returns (i: nat)
    ensures name in Declared(structs) ==>
      && i < |structs| && structs[i].name == name && Declared(structs)[name] == structs[i]
      && forall j :: i < j < |structs| ==> structs[j].name != name
    ensures name !in Declared(structs) ==> forall j :: 0 <= j < |structs| ==> structs[j].name != name
  {
    i := 0;
    if structs != [] {
      var n := |structs| - 1;
      i := LastDeclarationStands(structs[..n], name);
      assert forall j :: 0 <= j < n ==> structs[..n][j] == structs[j];
      if structs[n].name == name {
        i := n;
      }
    }
  }

  // ----- Alignment arithmetic -----

  lemma {:induction false} MultiplesKeepOrder(p: nat, q: nat, a: nat)
    ensures p <= q ==> p * a <= q * a
    ensures p < q ==> p * a + a <= q * a
    decreases q
  {
    if p < q {
      MultiplesKeepOrder(p, q - 1, a);
      assert q * a == (q - 1) * a + a;
    }
  }

  lemma RemainderIsUnique(q: nat, r: nat, a: nat)
    requires r < a
    ensures (q * a + r) % a == r && (q * a + r) / a == q
  {
    var x := q * a + r;
    assert x == x / a * a + x % a;
    MultiplesKeepOrder(q, x / a, a);
    MultiplesKeepOrder(x / a, q, a);
  }

  /** Multiples of `a` that differ are at least `a` apart. */
  lemma MultiplesAreApart(m: nat, n: nat, a: nat)
    requires a > 0 && m % a == 0 && n % a == 0 && m < n
    ensures m + a <= n
  {
    assert m == m / a * a && n == n / a * a;
    MultiplesKeepOrder(m / a, n / a, a);
    MultiplesKeepOrder(n / a, m / a, a);
  }

  /** The least multiple of `alignment` that is not below `value`. */
  function AlignUp(value: nat, alignment: nat): (r: nat)
    requires alignment > 0
    ensures r % alignment == 0 && value <= r < value + alignment
  {
    var remainder := value % alignment;
    if remainder == 0 then value
    else
      RoundsToMultiple(value, alignment);
      value + alignment - remainder
  }

  lemma RoundsToMultiple(value: nat, alignment: nat)
    requires alignment > 0
    ensures (value + alignment - value % alignment) % alignment == 0
  {
    var q := value / alignment;
    assert value == q * alignment + value % alignment;
    assert value + alignment - value % alignment == (q + 1) * alignment + 0;
    RemainderIsUnique(q + 1, 0, alignment);
  }

  lemma AlignUpIsLeast(value: nat, alignment: nat, other: nat)
    requires alignment > 0 && other % alignment == 0 && value <= other
    ensures AlignUp(value, alignment) <= other
  {
    if other < AlignUp(value, alignment) {
      MultiplesAreApart(other, AlignUp(value, alignment), alignment);
    }
  }

  /** Where the alignment divides 2^64 and the rounded value fits in 64 bits, so does the intermediate
      sum of `value + alignment - remainder`. */
  lemma AlignUpDoesNotOverflow(value: nat, alignment: nat)
    requires alignment > 0 && U64_LIMIT % alignment == 0
    requires AlignUp(value, alignment) < U64_LIMIT
    ensures value % alignment != 0 ==> value + alignment < U64_LIMIT
  {
    MultiplesAreApart(AlignUp(value, alignment), U64_LIMIT, alignment);
  }

  // ----- The layout of a struct, computed afresh -----

  datatype Measure = Measure(size: nat, align: nat)

  predicate Usable(m: Measure) {
    (m.align == 4 || m.align == 8) && m.size % m.align == 0
  }

  function Fixed(p: Program, valueType: ValueType): (r: Option<Measure>)
    ensures r.Some? ==> Usable(r.value)
  {
    match valueType
    case Int | U64 | Float => Some(Measure(8, 8))
    case I32 | U32 | Char | Bool => Some(Measure(4, 4))
    case Opaque | OpaqueHandle(_) | BorrowedHandle(_) | Nullable(_) => Some(Measure(p.pointerBytes, p.pointerBytes))
    case _ => None
  }

  ghost predicate AllUsable(ms: seq<Measure>) {
    forall n :: 0 <= n < |ms| ==> Usable(ms[n])
  }

  /** One past the last byte of the fields placed in order. */
  function End(ms: seq<Measure>): nat
    requires AllUsable(ms)
  {
    if ms == [] then 0
    else
      var last := ms[|ms| - 1];
      AlignUp(End(ms[..|ms| - 1]), last.align) + last.size
  }

  function MaxAlign(ms: seq<Measure>): (r: nat)
    requires AllUsable(ms)
    ensures r >= 1 && (ms != [] ==> r == 4 || r == 8)
    ensures forall n :: 0 <= n < |ms| ==> ms[n].align <= r
  {
    if ms == [] then 1
    else
      var rest, last := MaxAlign(ms[..|ms| - 1]), ms[|ms| - 1];
      assert forall n :: 0 <= n < |ms| - 1 ==> ms[n] == ms[..|ms| - 1][n];
      if rest < last.align then last.align else rest
  }

  function Placed(fields: seq<StructField>, ms: seq<Measure>): (r: seq<FieldLayout>)
    requires |fields| == |ms| && AllUsable(ms)
    ensures |r| == |ms|
  {
    if ms == [] then []
    else
      var m := |ms| - 1;
      Placed(fields[..m], ms[..m])
        + [FieldLayout(fields[m].name, AlignUp(End(ms[..m]), ms[m].align), ms[m].size, ms[m].align)]
  }

  function Assembled(name: string, fields: seq<StructField>, ms: seq<Measure>): StructLayout
    requires |fields| == |ms| && AllUsable(ms)
  {
    StructLayout(name, AlignUp(End(ms), MaxAlign(ms)), MaxAlign(ms), Placed(fields, ms))
  }

  /** The first complaint about the declaration itself, in the order the checks are made. */
  function Complaint(p: Program, name: string): Option<LayoutError> {
    if name !in p.reprC then Some(NotReprC(name))
    else if name !in p.structs then Some(UnknownStruct(name))
    else if p.structs[name].typeParams != [] then Some(GenericDeclaration(name))
    else if p.structs[name].fields == [] then Some(EmptyDeclaration(name))
    else None
  }

  /** The layout of `name` inside the structs `visiting`, with nothing remembered between fields. */
  function LayoutOf(p: Program, name: string, visiting: set<string>): (r: Result<StructLayout, LayoutError>)
    ensures r.Ok? ==> Usable(Measure(r.value.size, r.value.align))
    decreases p.structs.Keys - visiting, 0
  {
    if Complaint(p, name).Some? then Err(Complaint(p, name).value)
    else if name in visiting then Err(RecursiveLayout(name))
    else
      var fields := p.structs[name].fields;
      assert name in p.structs.Keys - visiting && name !in p.structs.Keys - (visiting + {name});
      match Measures(p, fields, visiting + {name})
      case Err(error) => Err(error)
      case Ok(ms) => Ok(Assembled(name, fields, ms))
  }

  function MeasureOf(p: Program, valueType: ValueType, visiting: set<string>): (r: Result<Measure, LayoutError>)
    ensures r.Ok? ==> Usable(r.value)
    decreases p.structs.Keys - visiting, 1
  {
    match Fixed(p, valueType)
    case Some(m) => Ok(m)
    case None =>
      if !valueType.Struct? then Err(UnsupportedType(valueType))
      else if valueType.args != [] then Err(GenericUse(valueType.name))
      else match LayoutOf(p, valueType.name, visiting)
        case Err(error) => Err(error)
        case Ok(layout) => Ok(Measure(layout.size, layout.align))
  }

  /** The measures of the fields in order, or the first error met. */
  function Measures(p: Program, fields: seq<StructField>, visiting: set<string>)
    : (r: Result<seq<Measure>, LayoutError>)
    ensures r.Ok? ==> |r.value| == |fields| && AllUsable(r.value)
    decreases p.structs.Keys - visiting, 2, |fields|
  {
    if fields == [] then Ok([])
    else match Measures(p, fields[..|fields| - 1], visiting)
      case Err(error) => Err(error)
      case Ok(ms) =>
        match MeasureOf(p, fields[|fields| - 1].valueType, visiting)
        case Err(error) => Err(error)
        case Ok(m) => Ok(ms + [m])
  }
}
