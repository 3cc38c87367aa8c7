/** Stable insertion sort over an arbitrary total preorder, and the order on strings
    that the compiler's sorted collections use. */
module Ordering {

  ghost predicate TotalPreorder<T(!new)>(leq: (T, T) -> bool) {
    && (forall x, y :: leq(x, y) || leq(y, x))
    && (forall x, y, z :: leq(x, y) && leq(y, z) ==> leq(x, z))
  }

  ghost predicate Sorted<T>(leq: (T, T) -> bool, s: seq<T>) {
    forall i, j :: 0 <= i < j < |s| ==> leq(s[i], s[j])
  }

  /** Elements the order cannot tell apart are equal. */
  ghost predicate Separates<T>(leq: (T, T) -> bool, s: seq<T>) {
    forall x, y :: x in s && y in s && leq(x, y) && leq(y, x) ==> x == y
  }

  function Insert<T>(leq: (T, T) -> bool, x: T, s: seq<T>): (r: seq<T>)
    ensures multiset(r) == multiset(s) + multiset{x}
  {
    if s == [] then [x]
    else if leq(x, s[0]) then
      assert [x] + s == [x] + s[..];
      [x] + s
    else
      assert s == [s[0]] + s[1..];
      [s[0]] + Insert(leq, x, s[1..])
  }

  /** Equal elements keep their order, as in a stable library sort. */
  function Sort<T>(leq: (T, T) -> bool, s: seq<T>): (r: seq<T>)
    ensures multiset(r) == multiset(s)
  {
    if s == [] then []
    else
      assert s == [s[0]] + s[1..];
      Insert(leq, s[0], Sort(leq, s[1..]))
  }

  lemma {:induction false} InsertKeepsSorted<T(!new)>(leq: (T, T) -> bool, x: T, s: seq<T>)
    requires TotalPreorder(leq) && Sorted(leq, s)
    ensures Sorted(leq, Insert(leq, x, s))
  {
    if s != [] && !leq(x, s[0]) {
      InsertKeepsSorted(leq, x, s[1..]);
      var rest := Insert(leq, x, s[1..]);
      forall j | 0 <= j < |rest|
        ensures leq(s[0], rest[j])
      {
        assert rest[j] in multiset(s[1..]) + multiset{x};
      }
    }
  }

  lemma {:induction false} SortIsSorted<T(!new)>(leq: (T, T) -> bool, s: seq<T>)
    requires TotalPreorder(leq)
    ensures Sorted(leq, Sort(leq, s))
  {
    if s != [] {
      SortIsSorted(leq, s[1..]);
      InsertKeepsSorted(leq, s[0], Sort(leq, s[1..]));
    }
  }

  /** Sorting moves nothing in a sorted list. */
  lemma {:induction false} SortOfSorted<T(!new)>(leq: (T, T) -> bool, s: seq<T>)
    requires Sorted(leq, s)
    ensures Sort(leq, s) == s
  {
    if s != [] {
      SortOfSorted(leq, s[1..]);
      assert s == [s[0]] + s[1..];
    }
  }

  lemma SameElements<T>(s: seq<T>, t: seq<T>, x: T)
    requires multiset(s) == multiset(t)
    ensures x in s <==> x in t
  {
    assert x in s <==> x in multiset(s);
    assert x in t <==> x in multiset(t);
  }

  /** A bag of elements the order separates has only one sorted arrangement. */
  lemma {:induction false} SortedArrangementIsUnique<T(!new)>(leq: (T, T) -> bool, s: seq<T>, t: seq<T>)
    requires Sorted(leq, s) && Sorted(leq, t)
    requires TotalPreorder(leq)
    requires multiset(s) == multiset(t)
    requires Separates(leq, s)
    ensures s == t
  {
    assert |s| == |multiset(s)| && |t| == |multiset(t)|;
    if s == [] {
      assert t == [];
    } else {
      SameElements(s, t, s[0]);
      SameElements(s, t, t[0]);
      assert leq(s[0], t[0]) && leq(t[0], s[0]) by {
        assert leq(s[0], s[0]) && leq(t[0], t[0]);
        assert t[0] in s && s[0] in t;
      }
      assert s == [s[0]] + s[1..] && t == [t[0]] + t[1..];
      assert multiset(s[1..]) == multiset(s) - multiset{s[0]};
      assert multiset(t[1..]) == multiset(t) - multiset{t[0]};
      SortedArrangementIsUnique(leq, s[1..], t[1..]);
    }
  }

  /** Character-by-character order; a proper prefix comes first. */
  predicate StringLeq(a: string, b: string) {
    a == [] || (b != [] && (a[0] < b[0] || (a[0] == b[0] && StringLeq(a[1..], b[1..]))))
  }

  /** The two strings agree up to `i`, and there `a` ends or has the smaller character. */
  predicate ComesFirstAt(a: string, b: string, i: nat) {
    && i <= |a| && i <= |b| && a[..i] == b[..i]
    && (i == |a| || (i < |b| && a[i] < b[i]))
  }

  lemma FirstIsShared(a: string, b: string, i: nat)
    requires ComesFirstAt(a, b, i)
    ensures i == 0 || (a != "" && b != "" && a[0] == b[0])
  {
    if i > 0 {
      assert a[..i][0] == b[..i][0];
    }
  }

  /** The order is the lexicographic one. */
  lemma {:induction false} StringLeqIff(a: string, b: string)
    ensures StringLeq(a, b) <==> exists i :: ComesFirstAt(a, b, i)
  {
    if a == "" {
      assert ComesFirstAt(a, b, 0);
    } else if b == "" || a[0] != b[0] {
      assert StringLeq(a, b) ==> ComesFirstAt(a, b, 0);
      if i: nat :| ComesFirstAt(a, b, i) {
        FirstIsShared(a, b, i);
      }
    } else {
      StringLeqIff(a[1..], b[1..]);
      if i: nat :| ComesFirstAt(a[1..], b[1..], i) {
        assert a[..i + 1] == [a[0]] + a[1..][..i] && b[..i + 1] == [b[0]] + b[1..][..i];
        assert ComesFirstAt(a, b, i + 1);
      }
      if i: nat :| ComesFirstAt(a, b, i) {
        assert i > 0;
        assert a[1..][..i - 1] == a[..i][1..] && b[1..][..i - 1] == b[..i][1..];
        assert ComesFirstAt(a[1..], b[1..], i - 1);
      }
    }
  }

  lemma {:induction false} StringLeqTotal(a: string, b: string)
    ensures StringLeq(a, b) || StringLeq(b, a)
  {
    if a != [] && b != [] && a[0] == b[0] {
      StringLeqTotal(a[1..], b[1..]);
    }
  }

  lemma {:induction false} StringLeqTransitive(a: string, b: string, c: string)
    requires StringLeq(a, b) && StringLeq(b, c)
    ensures StringLeq(a, c)
  {
    if a != [] && a[0] == b[0] && b[0] == c[0] {
      StringLeqTransitive(a[1..], b[1..], c[1..]);
    }
  }

  lemma {:induction false} StringLeqAntisymmetric(a: string, b: string)
    requires StringLeq(a, b) && StringLeq(b, a)
    ensures a == b
  {
    if a != [] && b != [] {
      StringLeqAntisymmetric(a[1..], b[1..]);
      assert a == [a[0]] + a[1..] && b == [b[0]] + b[1..];
    }
  }

  function ByName<T>(name: T -> string): (T, T) -> bool {
    (x: T, y: T) => StringLeq(name(x), name(y))
  }

  lemma ByNameIsTotalPreorder<T(!new)>(name: T -> string)
    ensures TotalPreorder(ByName(name))
  {
    var leq := ByName(name);
    forall x, y
      ensures leq(x, y) || leq(y, x)
    {
      StringLeqTotal(name(x), name(y));
    }
    forall x, y, z | leq(x, y) && leq(y, z)
      ensures leq(x, z)
    {
      StringLeqTransitive(name(x), name(y), name(z));
    }
  }
}
