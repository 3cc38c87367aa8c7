/** The order of declarations at the level of statements and of header text. */
module HeaderOrder {
  import opened Wrappers
  import opened Ordering
  import opened Texts
  import opened HeaderScanner
  import opened Declarations
  import opened Bindings
  import opened BindingOrder
  import opened Ownership
  import opened OrderVisibility

  // ----- Statements -----

  /** In a header that parses, declarations of one name are rendered alike. */
  ghost predicate AlikeIn(statements: seq<string>)
    requires AllBalanced(statements)
  {
    ParseAll(statements).Ok? ==> NamesakesAlike(HeadersOf(ParseAll(statements).value))
  }

  /** In particular where no two functions and no two structs share a name. */
  lemma DistinctNamesAreAlike(h: Headers)
    requires DistinctFunctions(h.functions) && DistinctStructs(h.structs)
    ensures NamesakesAlike(h)
  {
    forall f, g | f in h.functions && g in h.functions && f.name == g.name
      ensures f == g
    {
      var i :| 0 <= i < |h.functions| && h.functions[i] == f;
      var j :| 0 <= j < |h.functions| && h.functions[j] == g;
      assert i == j;
    }
    forall x, y | x in h.structs && y in h.structs && x.name == y.name
      ensures x == y
    {
      var i :| 0 <= i < |h.structs| && h.structs[i] == x;
      var j :| 0 <= j < |h.structs| && h.structs[j] == y;
      assert i == j;
    }
  }

  lemma ParsedForgetsOrder(s: seq<string>, t: seq<string>)
    requires AllBalanced(s) && AllBalanced(t) && multiset(s) == multiset(t)
    ensures ParseAll(s).Ok? <==> ParseAll(t).Ok?
    ensures ParseAll(s).Ok? ==> Rearranged(HeadersOf(ParseAll(s).value), HeadersOf(ParseAll(t).value))
  {
    SameLength(s, t);
    ImageForgetsOrder(s, t, Parsed(s), Parsed(t));
    CombinedForgetsOrder(Parsed(s), Parsed(t));
    if ParseAll(s).Ok? {
      HeadersAreRearranged(ParseAll(s).value, ParseAll(t).value);
    }
  }

  /** Whether a header has a binding does not depend on the order of its statements, whatever their names. */
  lemma BindingExistsInAnyOrder(package: string, s: seq<string>, t: seq<string>)
    requires AllBalanced(s) && AllBalanced(t) && multiset(s) == multiset(t)
    ensures BindingSource(package, s).Ok? <==> BindingSource(package, t).Ok?
  {
    ParsedForgetsOrder(s, t);
    if ParseAll(s).Ok? {
      OkInAnyOrder(package, HeadersOf(ParseAll(s).value), HeadersOf(ParseAll(t).value));
    }
  }

  /** Permuting a header's statements gives the same binding, or both orders are rejected, if declarations of one
      name are rendered alike; in particular if names are distinct or repetitions verbatim. */
  lemma BindingForgetsOrder(package: string, s: seq<string>, t: seq<string>)
    requires AllBalanced(s) && AllBalanced(t) && multiset(s) == multiset(t) && AlikeIn(s)
    ensures BindingSource(package, s) == BindingSource(package, t)
         || (BindingSource(package, s).Err? && BindingSource(package, t).Err?)
  {
    ParsedForgetsOrder(s, t);
    if ParseAll(s).Ok? {
      AlikeInAnyOrder(package, HeadersOf(ParseAll(s).value), HeadersOf(ParseAll(t).value));
    }
  }

  /** `a` and `b` stand at the same place in `s` and `x`. */
  ghost predicate Paired<A, B>(s: seq<A>, x: seq<B>, a: A, b: B)
    requires |s| == |x|
  {
    exists i :: 0 <= i < |s| && s[i] == a && x[i] == b
  }

  lemma PairedWithout<A, B>(s: seq<A>, x: seq<B>, i: nat, a: A, b: B)
    requires |s| == |x| && i < |s| && Paired(Without(s, i), Without(x, i), a, b)
    ensures Paired(s, x, a, b)
  {
    var j :| 0 <= j < |s| - 1 && Without(s, i)[j] == a && Without(x, i)[j] == b;
    var j' := if j < i then j else j + 1;
    assert s[j'] == a && x[j'] == b;
  }

  ghost predicate AllPaired<A, B>(s: seq<A>, x: seq<B>, t: seq<A>, y: seq<B>)
    requires |s| == |x|
  {
    |t| == |y| && forall k :: 0 <= k < |t| ==> Paired(s, x, t[k], y[k])
  }

  lemma OneMorePaired<A, B>(s: seq<A>, x: seq<B>, i: nat, rest: seq<A>, y: seq<B>)
    requires |s| == |x| && i < |s| && y != [] && x[i] == y[0]
    requires AllPaired(Without(s, i), Without(x, i), rest, y[1..])
    ensures AllPaired(s, x, [s[i]] + rest, y)
  {
    forall k | 0 <= k < |y|
      ensures Paired(s, x, ([s[i]] + rest)[k], y[k])
    {
      if k > 0 {
        assert Paired(Without(s, i), Without(x, i), rest[k - 1], y[1..][k - 1]);
        PairedWithout(s, x, i, rest[k - 1], y[1..][k - 1]);
      }
    }
  }

  /** Whatever order the images are put in, the originals can be put in that order. */
  lemma {:induction false} OrderOfImages<A, B>(s: seq<A>, x: seq<B>, y: seq<B>) returns (t: seq<A>)
    requires |s| == |x| && multiset(x) == multiset(y)
    ensures multiset(t) == multiset(s) && AllPaired(s, x, t, y)
    decreases |y|
  {
    SameLength(x, y);
    if y == [] {
      t := [];
    } else {
      SameElements(x, y, y[0]);
      var i :| 0 <= i < |x| && x[i] == y[0];
      BagsWithoutOne(x, y, i, 0);
      assert Without(y, 0) == y[1..];
      var rest := OrderOfImages(Without(s, i), Without(x, i), y[1..]);
      t := [s[i]] + rest;
      WithoutBag(s, i);
      OneMorePaired(s, x, i, rest, y);
    }
  }

  lemma StatementsInOrder(s: seq<string>, y: seq<Declared>) returns (t: seq<string>)
    requires AllBalanced(s) && ParseAll(s).Ok? && multiset(y) == multiset(ParseAll(s).value)
    ensures AllBalanced(t) && multiset(t) == multiset(s) && ParseAll(t) == Ok(y)
  {
    var x := ParseAll(s).value;
    CombinedIff(Parsed(s));
    t := OrderOfImages(s, x, y);
    forall k | 0 <= k < |t|
      ensures Balanced(BRACES, t[k]) && Declares(t[k]) == Ok(y[k])
    {
      assert Paired(s, x, t[k], y[k]);
      var i :| 0 <= i < |s| && s[i] == t[k] && x[i] == y[k];
      assert Parsed(s)[i] == Ok(x[i]);
    }
    CombinedIff(Parsed(t));
    assert ParseAll(t).value == y;
  }

  lemma UnlikeStatementsShow(package: string, s: seq<string>) returns (t: seq<string>)
    requires AllBalanced(s) && BindingSource(package, s).Ok? && !AlikeIn(s)
    ensures AllBalanced(t) && multiset(t) == multiset(s)
    ensures BindingSource(package, t).Ok? && BindingSource(package, t) != BindingSource(package, s)
  {
    var declared := ParseAll(s).value;
    BindingIsPlain(s);
    HeadersAreInOrder(Gathered(declared));
    var h := UnlikeNamesakesShow(package, HeadersOf(declared));
    ArrangedIsCollected(declared, h, Arranged(declared, h));
    t := StatementsInOrder(s, Arranged(declared, h));
  }

  /** A header that has a binding has the same binding in every order of its statements, if and only if any two of
      its functions, and any two of its structs, that share a name are rendered to the same text. */
  lemma OrderIsInvisibleIff(package: string, s: seq<string>)
    requires AllBalanced(s) && BindingSource(package, s).Ok?
    ensures (forall t :: AllBalanced(t) && multiset(t) == multiset(s) ==>
        BindingSource(package, t) == BindingSource(package, s))
      <==> AlikeIn(s)
  {
    if AlikeIn(s) {
      forall t | AllBalanced(t) && multiset(t) == multiset(s)
        ensures BindingSource(package, t) == BindingSource(package, s)
      {
        BindingForgetsOrder(package, s, t);
      }
    } else {
      var t := UnlikeStatementsShow(package, s);
      assert AllBalanced(t) && multiset(t) == multiset(s);
    }
  }

  // ----- Header text -----

  /** Text that is one declaration once a semicolon follows it. */
  ghost predicate IsDeclaration(piece: string) {
    Balanced(BRACES, piece) && Unsplit(BRACES, piece, 0, ';')
  }

  ghost predicate AllDeclarations(pieces: seq<string>) {
    forall k :: 0 <= k < |pieces| ==> IsDeclaration(pieces[k])
  }

  /** Declarations, each with its semicolon, and blank text after the last. */
  function Written(pieces: seq<string>, tail: string): string {
    Join(pieces + [tail], [';'])
  }

  lemma WrittenIsRead(pieces: seq<string>, tail: string)
    requires AllDeclarations(pieces) && IsDeclaration(tail) && Trim(tail) == ""
    ensures Statements(Written(pieces, tail)) == Ok(Trimmed(pieces)) && AllBalanced(Trimmed(pieces))
  {
    var all := pieces + [tail];
    assert all[..|all| - 1] == pieces;
    StatementsUndoJoin(all);
    forall k | 0 <= k < |pieces|
      ensures Balanced(BRACES, Trimmed(pieces)[k])
    {
      TrimBalanced(pieces[k]);
    }
  }

  /** Every header the scanner accepts is written in this way. */
  lemma AcceptedIsWritten(cleaned: string) returns (pieces: seq<string>, tail: string)
    requires Statements(cleaned).Ok?
    ensures AllDeclarations(pieces) && IsDeclaration(tail) && Trim(tail) == ""
    ensures cleaned == Written(pieces, tail) && Statements(cleaned).value == Trimmed(pieces)
  {
    var raw := Raw(BRACES, cleaned, 0, ';');
    StatementsRebuild(cleaned);
    pieces, tail := raw[..|raw| - 1], raw[|raw| - 1];
    assert pieces + [tail] == raw;
    forall k | 0 <= k < |raw|
      ensures IsDeclaration(raw[k])
    {
      RawNeverNegative(BRACES, cleaned, ';', k);
    }
  }

  lemma PermutedDeclarations(pieces: seq<string>, q: seq<string>)
    requires AllDeclarations(pieces) && multiset(q) == multiset(pieces)
    ensures AllDeclarations(q) && multiset(Trimmed(q)) == multiset(Trimmed(pieces))
  {
    SameLength(q, pieces);
    forall k | 0 <= k < |q|
      ensures IsDeclaration(q[k])
    {
      SameElements(q, pieces, q[k]);
      var i :| 0 <= i < |pieces| && pieces[i] == q[k];
    }
    ImageForgetsOrder(q, pieces, Trimmed(q), Trimmed(pieces));
  }

  lemma PiecesInOrder(pieces: seq<string>, t: seq<string>) returns (q: seq<string>)
    requires multiset(t) == multiset(Trimmed(pieces))
    ensures multiset(q) == multiset(pieces) && Trimmed(q) == t
  {
    q := OrderOfImages(pieces, Trimmed(pieces), t);
    forall k | 0 <= k < |q|
      ensures Trim(q[k]) == t[k]
    {
      assert Paired(pieces, Trimmed(pieces), q[k], t[k]);
    }
  }

  /** The same of header text: however the declarations of a header with a binding are written one after another,
      the binding is the same, if and only if namesakes are rendered alike. */
  lemma HeaderOrderIsInvisibleIff(package: string, pieces: seq<string>, tail: string)
    requires AllDeclarations(pieces) && IsDeclaration(tail) && Trim(tail) == ""
    requires Generated(package, Written(pieces, tail)).Ok?
    ensures AllBalanced(Trimmed(pieces))
    ensures (forall q :: multiset(q) == multiset(pieces) ==>
        Generated(package, Written(q, tail)) == Generated(package, Written(pieces, tail)))
      <==> AlikeIn(Trimmed(pieces))
  {
    WrittenIsRead(pieces, tail);
    var s := Trimmed(pieces);
    if AlikeIn(s) {
      forall q | multiset(q) == multiset(pieces)
        ensures Generated(package, Written(q, tail)) == Generated(package, Written(pieces, tail))
      {
        PermutedDeclarations(pieces, q);
        WrittenIsRead(q, tail);
        BindingForgetsOrder(package, s, Trimmed(q));
      }
    } else {
      var t := UnlikeStatementsShow(package, s);
      var q := PiecesInOrder(pieces, t);
      PermutedDeclarations(pieces, q);
      WrittenIsRead(q, tail);
      assert Generated(package, Written(q, tail)) != Generated(package, Written(pieces, tail));
    }
  }
}
