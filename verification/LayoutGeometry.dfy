/** Where the bytes of a laid-out struct end up, nested structs included. */
module LayoutGeometry {
  import opened Wrappers
  import opened StructLayouts

  /** A scalar at its offset from the start of the outermost struct. */
  datatype Leaf = Leaf(offset: nat, size: nat, align: nat)

  function Shifted(leaves: seq<Leaf>, base: nat): (r: seq<Leaf>)
    ensures |r| == |leaves|
    ensures forall n :: 0 <= n < |leaves| ==> r[n] == Leaf(base + leaves[n].offset, leaves[n].size, leaves[n].align)
  {
    seq(|leaves|, n requires 0 <= n < |leaves| => Leaf(base + leaves[n].offset, leaves[n].size, leaves[n].align))
  }

  /** The scalars of a struct, found by following its recorded field offsets. */
  function StructLeaves(p: Program, name: string, visiting: set<string>): seq<Leaf>
    requires LayoutOf(p, name, visiting).Ok?
    decreases p.structs.Keys - visiting, 0
  {
    assert name in p.structs.Keys - visiting && name !in p.structs.Keys - (visiting + {name});
    FieldLeaves(p, p.structs[name].fields, visiting + {name})
  }

  function TypeLeaves(p: Program, valueType: ValueType, visiting: set<string>): seq<Leaf>
    requires MeasureOf(p, valueType, visiting).Ok?
    decreases p.structs.Keys - visiting, 1
  {
    match Fixed(p, valueType)
    case Some(m) => [Leaf(0, m.size, m.align)]
    case None => StructLeaves(p, valueType.name, visiting)
  }

  function FieldLeaves(p: Program, fields: seq<StructField>, visiting: set<string>): seq<Leaf>
    requires Measures(p, fields, visiting).Ok?
    decreases p.structs.Keys - visiting, 2, |fields|
  {
    if fields == [] then []
    else
      var m := |fields| - 1;
      var placed := Placed(fields, Measures(p, fields, visiting).value);
      FieldLeaves(p, fields[..m], visiting)
        + Shifted(TypeLeaves(p, fields[m].valueType, visiting), placed[m].offset)
  }

  predicate Fits(leaf: Leaf, size: nat, align: nat) {
    && (leaf.align == 4 || leaf.align == 8)
    && leaf.offset % leaf.align == 0
    && leaf.align <= align
    && leaf.offset + leaf.size <= size
  }

  /** Every scalar is aligned and inside, and each ends before the next begins. */
  ghost predicate WellPlaced(leaves: seq<Leaf>, size: nat, align: nat) {
    && (forall n :: 0 <= n < |leaves| ==> Fits(leaves[n], size, align))
    && (forall i, j :: 0 <= i < j < |leaves| ==> leaves[i].offset + leaves[i].size <= leaves[j].offset)
  }

  lemma SumOfMultiples(a: nat, b: nat, small: nat, big: nat)
    requires (small == 4 || small == 8) && (big == 4 || big == 8) && small <= big
    requires a % big == 0 && b % small == 0
    ensures (a + b) % small == 0
  {
  }

  lemma AppendWellPlaced(front: seq<Leaf>, end: nat, align: nat, back: seq<Leaf>, m: Measure, at: nat)
    requires WellPlaced(front, end, align) && WellPlaced(back, m.size, m.align)
    requires Usable(m) && at % m.align == 0 && end <= at
    ensures WellPlaced(front + Shifted(back, at), at + m.size, if align < m.align then m.align else align)
  {
    var widest := if align < m.align then m.align else align;
    var moved := Shifted(back, at);
    forall n | 0 <= n < |moved|
      ensures Fits(moved[n], at + m.size, widest) && at <= moved[n].offset
    {
      assert Fits(back[n], m.size, m.align);
      SumOfMultiples(at, back[n].offset, back[n].align, m.align);
    }
    forall n | 0 <= n < |front|
      ensures Fits(front[n], at + m.size, widest)
    {
      assert Fits(front[n], end, align);
    }
  }

  lemma {:induction false} FieldLeavesAreWellPlaced(p: Program, fields: seq<StructField>, visiting: set<string>)
    requires Measures(p, fields, visiting).Ok?
    ensures var ms := Measures(p, fields, visiting).value;
      WellPlaced(FieldLeaves(p, fields, visiting), End(ms), MaxAlign(ms))
    decreases p.structs.Keys - visiting, 2, |fields|
  {
    if fields != [] {
      var m := |fields| - 1;
      var ms := Measures(p, fields, visiting).value;
      FieldLeavesAreWellPlaced(p, fields[..m], visiting);
      TypeLeavesAreWellPlaced(p, fields[m].valueType, visiting);
      assert ms[..m] == Measures(p, fields[..m], visiting).value;
      AppendWellPlaced(
        FieldLeaves(p, fields[..m], visiting), End(ms[..m]), MaxAlign(ms[..m]),
        TypeLeaves(p, fields[m].valueType, visiting), ms[m], AlignUp(End(ms[..m]), ms[m].align));
    }
  }

  lemma {:induction false} TypeLeavesAreWellPlaced(p: Program, valueType: ValueType, visiting: set<string>)
    requires MeasureOf(p, valueType, visiting).Ok?
    ensures var m := MeasureOf(p, valueType, visiting).value;
      WellPlaced(TypeLeaves(p, valueType, visiting), m.size, m.align)
    decreases p.structs.Keys - visiting, 1
  {
    if Fixed(p, valueType).None? {
      StructLeavesAreWellPlaced(p, valueType.name, visiting);
    }
  }

  /** In every successful layout all scalars, however deeply nested, are aligned, inside and disjoint. */
  lemma {:induction false} StructLeavesAreWellPlaced(p: Program, name: string, visiting: set<string>)
    requires LayoutOf(p, name, visiting).Ok?
    ensures var layout := LayoutOf(p, name, visiting).value;
      WellPlaced(StructLeaves(p, name, visiting), layout.size, layout.align)
    decreases p.structs.Keys - visiting, 0
  {
    assert name in p.structs.Keys - visiting && name !in p.structs.Keys - (visiting + {name});
    var fields := p.structs[name].fields;
    FieldLeavesAreWellPlaced(p, fields, visiting + {name});
    var ms := Measures(p, fields, visiting + {name}).value;
    var leaves := FieldLeaves(p, fields, visiting + {name});
    forall n | 0 <= n < |leaves|
      ensures Fits(leaves[n], AlignUp(End(ms), MaxAlign(ms)), MaxAlign(ms))
    {
      assert Fits(leaves[n], End(ms), MaxAlign(ms));
    }
  }

  lemma {:induction false} SteppingKeepsAlignment(index: nat, size: nat, offset: nat, small: nat, big: nat)
    requires (small == 4 || small == 8) && (big == 4 || big == 8) && small <= big
    requires size % big == 0 && offset % small == 0
    ensures (index * size + offset) % small == 0
  {
    if index > 0 {
      SteppingKeepsAlignment(index - 1, size, offset, small, big);
      assert index * size + offset == size + ((index - 1) * size + offset);
      SumOfMultiples(size, (index - 1) * size + offset, small, big);
    }
  }

  /** Padding the size to the alignment keeps every element of an array of structs aligned. */
  lemma ArrayElementsStayAligned(p: Program, name: string, visiting: set<string>, index: nat, n: nat)
    requires LayoutOf(p, name, visiting).Ok? && n < |StructLeaves(p, name, visiting)|
    ensures var leaf := StructLeaves(p, name, visiting)[n];
      leaf.align > 0 && (index * LayoutOf(p, name, visiting).value.size + leaf.offset) % leaf.align == 0
  {
    StructLeavesAreWellPlaced(p, name, visiting);
    var layout := LayoutOf(p, name, visiting).value;
    var leaf := StructLeaves(p, name, visiting)[n];
    assert Fits(leaf, layout.size, layout.align);
    SteppingKeepsAlignment(index, layout.size, leaf.offset, leaf.align, layout.align);
  }

  // ----- Nothing smaller will do -----

  /** Some other way to place the same fields in order: aligned and without overlap. */
  ghost predicate Placement(ms: seq<Measure>, offsets: seq<nat>) {
    && |offsets| == |ms|
    && AllUsable(ms)
    && (forall n :: 0 <= n < |ms| ==> offsets[n] % ms[n].align == 0)
    && (forall n :: 0 < n < |ms| ==> offsets[n - 1] + ms[n - 1].size <= offsets[n])
  }

  function EndOf(ms: seq<Measure>, offsets: seq<nat>): nat
    requires |offsets| == |ms|
  {
    if ms == [] then 0 else offsets[|ms| - 1] + ms[|ms| - 1].size
  }

  lemma {:induction false} EveryFieldIsAsLowAsPossible(fields: seq<StructField>, ms: seq<Measure>, offsets: seq<nat>)
    requires |fields| == |ms| && Placement(ms, offsets)
    ensures forall n :: 0 <= n < |ms| ==> Placed(fields, ms)[n].offset <= offsets[n]
    ensures End(ms) <= EndOf(ms, offsets)
    decreases |ms|
  {
    if ms != [] {
      var m := |ms| - 1;
      EveryFieldIsAsLowAsPossible(fields[..m], ms[..m], offsets[..m]);
      AlignUpIsLeast(End(ms[..m]), ms[m].align, offsets[m]);
    }
  }

  /** The alignment of a struct is that of one of its fields, and not below that of any. */
  lemma {:induction false} WidestField(ms: seq<Measure>) returns (n: nat)
    requires AllUsable(ms) && ms != []
    ensures n < |ms| && ms[n].align == MaxAlign(ms)
    ensures forall k :: 0 <= k < |ms| ==> ms[k].align <= MaxAlign(ms)
    decreases |ms|
  {
    n := |ms| - 1;
    var front := ms[..n];
    if front != [] && MaxAlign(front) >= ms[n].align {
      n := WidestField(front);
      assert front[n] == ms[n];
    } else if front == [] {
      assert MaxAlign(front) == 1;
    }
  }

  /** No aligned, order-keeping placement has a smaller offset anywhere or a smaller size that keeps every field of
      a next element aligned. */
  lemma LayoutIsLeast(name: string, fields: seq<StructField>, ms: seq<Measure>, offsets: seq<nat>, size: nat)
    requires |fields| == |ms| && Placement(ms, offsets)
    requires EndOf(ms, offsets) <= size && forall n :: 0 <= n < |ms| ==> size % ms[n].align == 0
    ensures var layout := Assembled(name, fields, ms);
      && layout.size <= size
      && forall n :: 0 <= n < |ms| ==> layout.fields[n].offset <= offsets[n]
  {
    EveryFieldIsAsLowAsPossible(fields, ms, offsets);
    if ms != [] {
      var widest := WidestField(ms);
      AlignUpIsLeast(End(ms), MaxAlign(ms), size);
    }
  }

  lemma PlaceOneMore(ms: seq<Measure>, offsets: seq<nat>, m: Measure, at: nat)
    requires Placement(ms, offsets) && Usable(m)
    requires EndOf(ms, offsets) <= at && at % m.align == 0
    ensures Placement(ms + [m], offsets + [at])
  {
  }

  lemma OffsetsOfPlaced(fields: seq<StructField>, ms: seq<Measure>)
    requires |fields| == |ms| && AllUsable(ms) && ms != []
    ensures var m := |ms| - 1;
      Offsets(Placed(fields, ms)) == Offsets(Placed(fields[..m], ms[..m])) + [AlignUp(End(ms[..m]), ms[m].align)]
  {
  }

  lemma {:induction false} PlacedAt(fields: seq<StructField>, ms: seq<Measure>, n: nat)
    requires |fields| == |ms| && AllUsable(ms) && n < |ms|
    ensures var placed := Placed(fields, ms)[n];
      placed.name == fields[n].name && placed.size == ms[n].size && placed.align == ms[n].align
    decreases |ms|
  {
    if n < |ms| - 1 {
      PlacedAt(fields[..|ms| - 1], ms[..|ms| - 1], n);
    }
  }

  lemma {:induction false} MeasuredAt(p: Program, fields: seq<StructField>, visiting: set<string>, n: nat)
    requires Measures(p, fields, visiting).Ok? && n < |fields|
    ensures MeasureOf(p, fields[n].valueType, visiting) == Ok(Measures(p, fields, visiting).value[n])
    decreases |fields|
  {
    if n < |fields| - 1 {
      MeasuredAt(p, fields[..|fields| - 1], visiting, n);
    }
  }

  /** A layout lists the fields of its own struct in order, each with its name and the size and alignment of its own
      type. */
  lemma LayoutListsFields(p: Program, name: string, visiting: set<string>, n: nat)
    requires LayoutOf(p, name, visiting).Ok? && n < |p.structs[name].fields|
    ensures var layout, field := LayoutOf(p, name, visiting).value, p.structs[name].fields[n];
      && layout.name == name && |layout.fields| == |p.structs[name].fields|
      && layout.fields[n].name == field.name
      && MeasureOf(p, field.valueType, visiting + {name})
         == Ok(Measure(layout.fields[n].size, layout.fields[n].align))
  {
    var fields := p.structs[name].fields;
    MeasuredAt(p, fields, visiting + {name}, n);
    PlacedAt(fields, Measures(p, fields, visiting + {name}).value, n);
  }

  /** The layout is itself such a placement, so it is the least one. */
  lemma {:induction false} PlacedIsPlacement(fields: seq<StructField>, ms: seq<Measure>)
    requires |fields| == |ms| && AllUsable(ms)
    ensures Placement(ms, Offsets(Placed(fields, ms)))
    ensures EndOf(ms, Offsets(Placed(fields, ms))) == End(ms)
    decreases |ms|
  {
    if ms != [] {
      var m := |ms| - 1;
      PlacedIsPlacement(fields[..m], ms[..m]);
      var before := Offsets(Placed(fields[..m], ms[..m]));
      var at := AlignUp(End(ms[..m]), ms[m].align);
      OffsetsOfPlaced(fields, ms);
      PlaceOneMore(ms[..m], before, ms[m], at);
      assert ms[..m] + [ms[m]] == ms;
    }
  }

  function Offsets(fields: seq<FieldLayout>): (r: seq<nat>)
    ensures |r| == |fields| && forall n :: 0 <= n < |fields| ==> r[n] == fields[n].offset
  {
    seq(|fields|, n requires 0 <= n < |fields| => fields[n].offset)
  }

  // ----- 64-bit arithmetic -----

  lemma {:induction false} EndGrows(ms: seq<Measure>, n: nat)
    requires AllUsable(ms) && n <= |ms|
    ensures End(ms[..n]) <= End(ms)
    decreases |ms|
  {
    if n == |ms| {
      assert ms[..n] == ms;
    } else {
      var m := |ms| - 1;
      assert ms[..m][..n] == ms[..n];
      EndGrows(ms[..m], n);
    }
  }

  lemma EndOfOneMore(ms: seq<Measure>, n: nat)
    requires AllUsable(ms) && n < |ms|
    ensures AlignUp(End(ms[..n]), ms[n].align) + ms[n].size <= End(ms)
  {
    assert ms[..n + 1][..n] == ms[..n];
    EndGrows(ms, n + 1);
  }

  /** When the final size fits in 64 bits, so does the sum inside every call of `align_up`. */
  lemma NoStepOverflows(ms: seq<Measure>, n: nat)
    requires AllUsable(ms) && n < |ms| && AlignUp(End(ms), MaxAlign(ms)) < U64_LIMIT
    ensures var offset := End(ms[..n]);
      && (offset % ms[n].align != 0 ==> offset + ms[n].align < U64_LIMIT)
      && AlignUp(offset, ms[n].align) + ms[n].size < U64_LIMIT
    ensures End(ms) % MaxAlign(ms) != 0 ==> End(ms) + MaxAlign(ms) < U64_LIMIT
  {
    EndOfOneMore(ms, n);
    RoundingFits(End(ms), MaxAlign(ms));
    RoundingFits(End(ms[..n]), ms[n].align);
  }

  /** An alignment of 1, 2, 4 or 8 bytes divides 2^64. */
  lemma RoundingFits(value: nat, alignment: nat)
    requires alignment in {1, 2, 4, 8} && AlignUp(value, alignment) < U64_LIMIT
    ensures value <= AlignUp(value, alignment)
    ensures value % alignment != 0 ==> value + alignment < U64_LIMIT
  {
    assert U64_LIMIT % 1 == 0 && U64_LIMIT % 2 == 0 && U64_LIMIT % 4 == 0 && U64_LIMIT % 8 == 0;
    AlignUpDoesNotOverflow(value, alignment);
  }
}
