/** Scalars from the header to the layout: what a C type becomes in a binding, and what the compiler makes of that. */
module CScalars {
  import opened Wrappers
  import opened StructLayouts
  import Bindings

  datatype Kind = Signed | Unsigned | Floating | Truth | Character

  datatype Scalar = Scalar(kind: Kind, width: nat)

  /** A C scalar as the C compilers of the two targets have it. */
  function HeaderScalar(base: string, pointerBytes: PointerBytes): Option<Scalar> {
    if base == "int" || base == "int32_t" then Some(Scalar(Signed, 4))
    else if base == "uint32_t" then Some(Scalar(Unsigned, 4))
    else if base == "int64_t" then Some(Scalar(Signed, 8))
    else if base == "uint64_t" then Some(Scalar(Unsigned, 8))
    else if base == "size_t" then Some(Scalar(Unsigned, pointerBytes))
    else if base == "double" then Some(Scalar(Floating, 8))
    else if base == "bool" || base == "_Bool" then Some(Scalar(Truth, 1))
    else if base == "char32_t" then Some(Scalar(Character, 4))
    else None
  }

  /** The type that the compiler reads from a scalar's name. */
  function ReadScalar(text: string): Option<ValueType> {
    if text == "i64" then Some(Int)
    else if text == "i32" then Some(I32)
    else if text == "u32" then Some(U32)
    else if text == "u64" || text == "ui64" then Some(U64)
    else if text == "f64" then Some(Float)
    else if text == "char" then Some(Char)
    else if text == "bool" then Some(Bool)
    else None
  }

  function KindOf(valueType: ValueType): Option<Kind> {
    match valueType
    case Int | I32 => Some(Signed)
    case U32 | U64 => Some(Unsigned)
    case Float => Some(Floating)
    case Char => Some(Character)
    case Bool => Some(Truth)
    case _ => None
  }

  /** What a scalar of the header is when it has been bound and compiled. */
  function BoundScalar(p: Program, base: string, structNames: set<string>): Option<Scalar> {
    match Bindings.ScalarType(base, structNames)
    case Err(_) => None
    case Ok(text) =>
      match ReadScalar(text)
      case None => None
      case Some(valueType) =>
        if KindOf(valueType).Some? && Fixed(p, valueType).Some? then
          Some(Scalar(KindOf(valueType).value, Fixed(p, valueType).value.size))
        else None
  }

  /** A scalar is bound to one of its own kind. It takes the bytes it has in C, if and only if it is no truth value,
      which C keeps in one byte, and no `size_t` on a target with 32-bit pointers. */
  lemma ScalarKeepsMeaningIff(p: Program, base: string, structNames: set<string>)
    requires HeaderScalar(base, p.pointerBytes).Some?
    ensures var before, after := HeaderScalar(base, p.pointerBytes).value, BoundScalar(p, base, structNames);
      && after.Some? && after.value.kind == before.kind
      && (after.value.width == before.width
        <==> base != "bool" && base != "_Bool" && (base == "size_t" ==> p.pointerBytes == 8))
  {
    var kind := HeaderScalar(base, p.pointerBytes).value.kind;
    var text := ScalarText(base);
    ScalarIsWritten(base, p.pointerBytes, structNames);
    assert KindOf(ReadScalar(text).value) == Some(kind);
  }

  /** The names of the binding, by the size and the kind of the C type. */
  function ScalarText(base: string): string {
    match HeaderScalar(base, 8)
    case None => ""
    case Some(Scalar(Signed, width)) => if width == 4 then "i32" else "i64"
    case Some(Scalar(Unsigned, width)) => if width == 4 then "u32" else "u64"
    case Some(Scalar(Floating, _)) => "f64"
    case Some(Scalar(Truth, _)) => "bool"
    case Some(Scalar(Character, _)) => "char"
  }

  lemma ScalarIsWritten(base: string, pointerBytes: PointerBytes, structNames: set<string>)
    requires HeaderScalar(base, pointerBytes).Some?
    ensures Bindings.ScalarType(base, structNames) == Ok(ScalarText(base)) && ReadScalar(ScalarText(base)).Some?
  {
  }

  /** What is no such scalar is a struct, nothing at all, or refused. */
  lemma OtherBasesAreStructs(base: string, structNames: set<string>)
    requires HeaderScalar(base, 8).None? && base != "void"
    ensures Bindings.ScalarType(base, structNames).Ok? <==> base in structNames
    ensures base in structNames ==> Bindings.ScalarType(base, structNames) == Ok(base)
  {
  }

  // ----- Two truth values -----

  lemma MeasuresNext(
    p: Program, before: seq<StructField>, f: StructField, visiting: set<string>, ms: seq<Measure>, m: Measure)
    requires Measures(p, before, visiting) == Ok(ms) && Fixed(p, f.valueType) == Some(m)
    ensures Measures(p, before + [f], visiting) == Ok(ms + [m])
  {
    assert (before + [f])[..|before|] == before;
  }

  lemma AssembledNext(ms: seq<Measure>, m: Measure, all: seq<Measure>)
    requires AllUsable(ms) && AllUsable(all) && Usable(m) && all == ms + [m]
    ensures End(all) == AlignUp(End(ms), m.align) + m.size
    ensures MaxAlign(all) == if MaxAlign(ms) < m.align then m.align else MaxAlign(ms)
    ensures forall before: seq<StructField>, f :: |before| == |ms| ==>
      Placed(before + [f], all)
      == Placed(before, ms) + [FieldLayout(f.name, AlignUp(End(ms), m.align), m.size, m.align)]
  {
    assert all[..|ms|] == ms;
    assert forall n :: 0 <= n < |ms| ==> ms[n] == all[n];
    forall before: seq<StructField>, f | |before| == |ms|
      ensures Placed(before + [f], all)
        == Placed(before, ms) + [FieldLayout(f.name, AlignUp(End(ms), m.align), m.size, m.align)]
    {
      assert (before + [f])[..|before|] == before;
    }
  }

  const A := StructField("a", Bool)
  const B := StructField("b", Bool)
  const FLAGS := StructType("Flags", [], [A] + [B])
  const FOUR := Measure(4, 4)

  lemma TwoFoursAreAssembled()
    ensures Assembled("Flags", [A] + [B], [FOUR] + [FOUR])
      == StructLayout("Flags", 8, 4, [FieldLayout("a", 0, 4, 4), FieldLayout("b", 4, 4, 4)])
  {
    AssembledNext([], FOUR, [FOUR]);
    AssembledNext([FOUR], FOUR, [FOUR] + [FOUR]);
    assert [] + [A] == [A];
    assert AlignUp(0, 4) == 0 && AlignUp(4, 4) == 4 && AlignUp(8, 4) == 8;
  }

  /** So a struct of two truth values is laid out in eight bytes, where C has two. */
  lemma TruthValuesAreSpread(pointerBytes: PointerBytes)
    ensures LayoutOf(Program(map["Flags" := FLAGS], {"Flags"}, pointerBytes), "Flags", {})
      == Ok(StructLayout("Flags", 8, 4, [FieldLayout("a", 0, 4, 4), FieldLayout("b", 4, 4, 4)]))
    ensures HeaderScalar("bool", pointerBytes) == Some(Scalar(Truth, 1))
  {
    var p, visiting := Program(map["Flags" := FLAGS], {"Flags"}, pointerBytes), {} + {"Flags"};
    MeasuresNext(p, [], A, visiting, [], FOUR);
    assert [] + [A] == [A] && [] + [FOUR] == [FOUR];
    MeasuresNext(p, [A], B, visiting, [FOUR], FOUR);
    TwoFoursAreAssembled();
  }
}
