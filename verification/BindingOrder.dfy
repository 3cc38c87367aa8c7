/** What is collected of a header depends on its declarations as a bag, apart from the arrangement of structs and
    functions. */
module BindingOrder {
  import opened Wrappers
  import opened Ordering
  import opened Declarations
  import opened Bindings

  // ----- What is collected depends on the declarations as a bag -----

  lemma {:induction false} StructCount(declared: seq<Declared>, item: CStruct)
    ensures multiset(Gathered(declared).structs)[item] == multiset(declared)[Struct(item)]
  {
    if declared != [] {
      var n := |declared| - 1;
      StructCount(declared[..n], item);
      assert declared == declared[..n] + [declared[n]];
    }
  }

  lemma {:induction false} FunctionCount(declared: seq<Declared>, item: CFunction)
    ensures multiset(Gathered(declared).functions)[item] == multiset(declared)[Function(item)]
  {
    if declared != [] {
      var n := |declared| - 1;
      FunctionCount(declared[..n], item);
      assert declared == declared[..n] + [declared[n]];
    }
  }

  lemma InsertNameMembers(name: string, names: seq<string>)
    ensures forall n :: n in InsertName(name, names) <==> n in names || n == name
  {
    var r := InsertName(name, names);
    if name !in names {
      forall n
        ensures n in r <==> n in names || n == name
      {
        assert n in r <==> n in multiset(r);
        assert n in names <==> n in multiset(names);
      }
    }
  }

  lemma {:induction false} OpaqueMembers(declared: seq<Declared>, name: string)
    ensures name in Gathered(declared).opaqueTypes <==> Opaque(name) in declared
  {
    if declared != [] {
      var n := |declared| - 1;
      OpaqueMembers(declared[..n], name);
      assert declared == declared[..n] + [declared[n]];
      if declared[n].Opaque? {
        InsertNameMembers(declared[n].name, Gathered(declared[..n]).opaqueTypes);
      }
    }
  }

  lemma StringOrder()
    ensures TotalPreorder(StringLeq)
  {
    forall x, y
      ensures StringLeq(x, y) || StringLeq(y, x)
    {
      StringLeqTotal(x, y);
    }
    forall x, y, z | StringLeq(x, y) && StringLeq(y, z)
      ensures StringLeq(x, z)
    {
      StringLeqTransitive(x, y, z);
    }
  }

  /** The ordered set: sorted, each name once. */
  ghost predicate OrderedSet(names: seq<string>) {
    Sorted(StringLeq, names) && forall n :: multiset(names)[n] <= 1
  }

  lemma {:induction false} OpaqueIsOrderedSet(declared: seq<Declared>)
    ensures OrderedSet(Gathered(declared).opaqueTypes)
  {
    if declared != [] {
      var n := |declared| - 1;
      OpaqueIsOrderedSet(declared[..n]);
      if declared[n].Opaque? {
        var names := Gathered(declared[..n]).opaqueTypes;
        var name := declared[n].name;
        if name !in names {
          StringOrder();
          InsertKeepsSorted(StringLeq, name, names);
          assert multiset(names)[name] == 0;
        }
      }
    }
  }

  /** An ordered set is determined by its members. */
  lemma OrderedSetIsUnique(s: seq<string>, t: seq<string>)
    requires OrderedSet(s) && OrderedSet(t) && forall n :: n in s <==> n in t
    ensures s == t
  {
    forall n
      ensures multiset(s)[n] == multiset(t)[n]
    {
      assert n in s <==> n in multiset(s);
      assert n in t <==> n in multiset(t);
    }
    assert multiset(s) == multiset(t);
    StringOrder();
    forall x, y | x in s && y in s && StringLeq(x, y) && StringLeq(y, x)
      ensures x == y
    {
      StringLeqAntisymmetric(x, y);
    }
    SortedArrangementIsUnique(StringLeq, s, t);
  }

  /** Opaque types do not depend on the order at all; structs and functions only in how they are arranged. */
  lemma GatheredForgetsOrder(s: seq<Declared>, t: seq<Declared>)
    requires multiset(s) == multiset(t)
    ensures Gathered(s).opaqueTypes == Gathered(t).opaqueTypes
    ensures multiset(Gathered(s).structs) == multiset(Gathered(t).structs)
    ensures multiset(Gathered(s).functions) == multiset(Gathered(t).functions)
  {
    forall name: string
      ensures name in Gathered(s).opaqueTypes <==> name in Gathered(t).opaqueTypes
    {
      OpaqueMembers(s, name);
      OpaqueMembers(t, name);
      SameElements(s, t, Opaque(name));
    }
    OpaqueIsOrderedSet(s);
    OpaqueIsOrderedSet(t);
    OrderedSetIsUnique(Gathered(s).opaqueTypes, Gathered(t).opaqueTypes);
    forall item: CStruct
      ensures multiset(Gathered(s).structs)[item] == multiset(Gathered(t).structs)[item]
    {
      StructCount(s, item);
      StructCount(t, item);
    }
    forall item: CFunction
      ensures multiset(Gathered(s).functions)[item] == multiset(Gathered(t).functions)[item]
    {
      FunctionCount(s, item);
      FunctionCount(t, item);
    }
  }

  // ----- Parsing statement by statement -----

  ghost predicate AllOk<T>(results: seq<Result<T, HeaderError>>) {
    forall i :: 0 <= i < |results| ==> results[i].Ok?
  }

  lemma {:induction false} CombinedIff<T>(results: seq<Result<T, HeaderError>>)
    ensures Combined(results).Ok? <==> AllOk(results)
    ensures Combined(results).Ok? ==>
      && |Combined(results).value| == |results|
      && forall i :: 0 <= i < |results| ==> results[i] == Ok(Combined(results).value[i])
  {
    if results != [] {
      var n := |results| - 1;
      CombinedIff(results[..n]);
      assert forall i :: 0 <= i < n ==> results[..n][i] == results[i];
    }
  }

  function Without<T>(s: seq<T>, j: nat): (r: seq<T>)
    requires j < |s|
    ensures |r| == |s| - 1
  {
    s[..j] + s[j + 1..]
  }

  lemma WithoutBag<T>(s: seq<T>, j: nat)
    requires j < |s|
    ensures multiset(s) == multiset(Without(s, j)) + multiset{s[j]}
  {
    assert s == s[..j] + [s[j]] + s[j + 1..];
  }

  lemma BagsWithoutOne<T>(s: seq<T>, t: seq<T>, i: nat, j: nat)
    requires i < |s| && j < |t| && s[i] == t[j]
    ensures multiset(s) == multiset(t) <==> multiset(Without(s, i)) == multiset(Without(t, j))
  {
    WithoutBag(s, i);
    WithoutBag(t, j);
    assert multiset(Without(s, i)) == multiset(s) - multiset{s[i]};
    assert multiset(Without(t, j)) == multiset(t) - multiset{t[j]};
  }

  /** Equal elements give equal values. */
  ghost predicate Alike<A, B>(s: seq<A>, t: seq<A>, x: seq<B>, y: seq<B>)
    requires |x| == |s| && |y| == |t|
  {
    forall i, j :: 0 <= i < |s| && 0 <= j < |t| && s[i] == t[j] ==> x[i] == y[j]
  }

  lemma AlikeWithout<A, B>(s: seq<A>, t: seq<A>, x: seq<B>, y: seq<B>, i: nat, j: nat)
    requires |x| == |s| && |y| == |t| && i < |s| && j < |t| && Alike(s, t, x, y)
    ensures Alike(Without(s, i), Without(t, j), Without(x, i), Without(y, j))
  {
    forall k, l | 0 <= k < |s| - 1 && 0 <= l < |t| - 1 && Without(s, i)[k] == Without(t, j)[l]
      ensures Without(x, i)[k] == Without(y, j)[l]
    {
      var k', l' := if k < i then k else k + 1, if l < j then l else l + 1;
      assert s[k'] == t[l'] && x[k'] == y[l'];
    }
  }

  /** Values that depend only on the elements of equal bags form equal bags. */
  lemma {:induction false} ImageForgetsOrder<A, B>(s: seq<A>, t: seq<A>, x: seq<B>, y: seq<B>)
    requires multiset(s) == multiset(t) && |x| == |s| && |y| == |t| && Alike(s, t, x, y)
    ensures multiset(x) == multiset(y)
    decreases |s|
  {
    assert |s| == |multiset(s)| && |t| == |multiset(t)|;
    if s != [] {
      SameElements(s, t, s[0]);
      var j :| 0 <= j < |t| && t[j] == s[0];
      BagsWithoutOne(s, t, 0, j);
      AlikeWithout(s, t, x, y, 0, j);
      ImageForgetsOrder(Without(s, 0), Without(t, j), Without(x, 0), Without(y, j));
      BagsWithoutOne(x, y, 0, j);
    }
  }

  lemma AllOkInAnyOrder<T>(r: seq<Result<T, HeaderError>>, q: seq<Result<T, HeaderError>>)
    requires multiset(r) == multiset(q) && AllOk(r)
    ensures AllOk(q)
  {
    forall i | 0 <= i < |q|
      ensures q[i].Ok?
    {
      SameElements(r, q, q[i]);
      var j :| 0 <= j < |r| && r[j] == q[i];
    }
  }

  lemma CombinedForgetsOrder<T>(r: seq<Result<T, HeaderError>>, q: seq<Result<T, HeaderError>>)
    requires multiset(r) == multiset(q)
    ensures Combined(r).Ok? <==> Combined(q).Ok?
    ensures Combined(r).Ok? ==> multiset(Combined(r).value) == multiset(Combined(q).value)
  {
    CombinedIff(r);
    CombinedIff(q);
    if AllOk(r) {
      AllOkInAnyOrder(r, q);
      ImageForgetsOrder(r, q, Combined(r).value, Combined(q).value);
    }
    if AllOk(q) {
      AllOkInAnyOrder(q, r);
    }
  }

  // ----- Names -----

  ghost predicate DistinctFunctions(functions: seq<CFunction>) {
    forall i, j :: 0 <= i < j < |functions| ==> functions[i].name != functions[j].name
  }

  ghost predicate DistinctStructs(structs: seq<CStruct>) {
    forall i, j :: 0 <= i < j < |structs| ==> structs[i].name != structs[j].name
  }
}
