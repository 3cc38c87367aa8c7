/** Who owns what in a generated binding: release inference and rendering agree. */
module Ownership {
  import opened Wrappers
  import opened Ordering
  import opened Texts
  import opened HeaderScanner
  import opened Declarations
  import opened Bindings
  import opened BindingOrder

  // ----- What parsing guarantees of names and types -----

  /** Names are words, and a callback is no pointer. */
  ghost predicate PlainType(t: CType) {
    && IsWord(t.base)
    && (t.callback.Some? ==>
      && !t.pointer
      && PlainType(t.callback.value.returnType)
      && forall k :: 0 <= k < |t.callback.value.params| ==> PlainType(t.callback.value.params[k]))
  }

  ghost predicate PlainDeclaration(d: CDeclaration) {
    IsWord(d.name) && PlainType(d.valueType)
  }

  ghost predicate PlainFunction(f: CFunction) {
    && IsWord(f.name) && PlainType(f.returnType)
    && forall k :: 0 <= k < |f.params| ==> PlainDeclaration(f.params[k])
  }

  /** A typedef may even be named by a star. */
  ghost predicate IsToken(s: string) {
    IsWord(s) || s == "*"
  }

  ghost predicate PlainStruct(item: CStruct) {
    IsToken(item.name) && forall k :: 0 <= k < |item.fields| ==> PlainDeclaration(item.fields[k])
  }

  ghost predicate PlainDeclared(d: Declared) {
    match d
    case Function(f) => PlainFunction(f)
    case Struct(item) => PlainStruct(item)
    case _ => true
  }

  lemma ParsedTypeIsPlain(tokens: seq<string>, source: string)
    requires AllTokens(tokens)
    ensures ParseTypeTokens(tokens, source).Ok? ==>
      PlainType(ParseTypeTokens(tokens, source).value) && ParseTypeTokens(tokens, source).value.callback.None?
  {
    var base := BaseTokens(tokens);
    if |base| == 1 {
      assert base[0] in base;
    }
  }

  lemma AbstractTypeIsPlain(source: string)
    ensures ParseAbstractType(source).Ok? ==> PlainType(ParseAbstractType(source).value)
  {
    TokensAreWords(source, "");
    ParsedTypeIsPlain(Tokens(source), source);
  }

  lemma {:induction false} AbstractTypesArePlain(sources: seq<string>)
    ensures ParseAbstractTypes(sources).Ok? ==>
      forall k :: 0 <= k < |ParseAbstractTypes(sources).value| ==> PlainType(ParseAbstractTypes(sources).value[k])
  {
    if sources != [] {
      AbstractTypeIsPlain(sources[0]);
      AbstractTypesArePlain(sources[1..]);
    }
  }

  ghost predicate PlainResult(r: Result<CDeclaration, HeaderError>) {
    r.Ok? ==> PlainDeclaration(r.value)
  }

  lemma RegularDeclarationIsPlain(source: string)
    ensures PlainResult(ParseRegularDeclaration(source))
  {
    var tokens := Tokens(source);
    TokensAreWords(source, "");
    if tokens != [] {
      ParsedTypeIsPlain(tokens[..|tokens| - 1], source);
    }
  }

  lemma {:induction false} RegularDeclarationsArePlain(sources: seq<string>)
    ensures ParseRegularDeclarations(sources).Ok? ==>
      forall k :: 0 <= k < |ParseRegularDeclarations(sources).value| ==>
        PlainDeclaration(ParseRegularDeclarations(sources).value[k])
  {
    if sources != [] {
      RegularDeclarationIsPlain(sources[0]);
      RegularDeclarationsArePlain(sources[1..]);
    }
  }

  lemma CallbackOfIsPlain(name: string, returning: string, inside: string)
    requires NeverNegative(PARENS, inside) && IsWord(name)
    ensures PlainResult(CallbackOf(name, returning, inside))
  {
    AbstractTypeIsPlain(returning);
    AbstractTypesArePlain(TopLevel(inside, ','));
  }

  lemma CallbackAtIsPlain(source: string, marker: nat, name: string, open: nat)
    returns (r: Result<CDeclaration, HeaderError>)
    requires marker <= |source| && open < |source| && source[open] == '(' && IsWord(name)
    ensures r == CallbackAt(source, marker, name, open) && PlainResult(r)
  {
    InteriorSplits(source, open);
    var close := MatchingParen(source, open);
    if close.None? {
      return Err(UnmatchedParen(source));
    }
    if Trim(source[close.value + 1..]) != "" {
      return Err(TrailingTokens(source));
    }
    CallbackOfIsPlain(name, Trim(source[..marker]), source[open + 1..close.value]);
    r := CallbackOf(name, Trim(source[..marker]), source[open + 1..close.value]);
  }

  lemma CallbackNamedIsPlain(source: string, marker: nat) returns (r: Result<CDeclaration, HeaderError>)
    requires marker + 2 <= |source|
    ensures r == CallbackNamed(source, marker) && PlainResult(r)
  {
    r := Err(BadCallback(source));
    var nameEnd := FindFirst(source, ')', marker + 2);
    if nameEnd.Some? && IsIdentifier(Trim(source[marker + 2..nameEnd.value])) {
      var open := FindFirst(source, '(', nameEnd.value + 1);
      if open.Some? {
        r := CallbackAtIsPlain(source, marker, Trim(source[marker + 2..nameEnd.value]), open.value);
      }
    }
  }

  lemma CallbackIsPlain(source: string)
    ensures PlainResult(ParseCallback(source))
  {
    var marker := Find(source, "(*", 0);
    if marker.Some? {
      var _ := CallbackNamedIsPlain(source, marker.value);
    }
  }

  lemma ParameterIsPlain(source: string)
    ensures PlainResult(ParseParameter(source))
  {
    CallbackIsPlain(source);
    RegularDeclarationIsPlain(source);
  }

  lemma {:induction false} ParametersArePlain(sources: seq<string>)
    ensures ParseParameters(sources).Ok? ==>
      forall k :: 0 <= k < |ParseParameters(sources).value| ==> PlainDeclaration(ParseParameters(sources).value[k])
  {
    if sources != [] {
      ParameterIsPlain(sources[0]);
      ParametersArePlain(sources[1..]);
    }
  }

  lemma FunctionIsPlain(statement: string)
    ensures ParseFunction(statement).Ok? ==> PlainFunction(ParseFunction(statement).value)
  {
    if ParseFunction(statement).Ok? {
      var open := FindFirst(statement, '(', 0).value;
      InteriorSplits(statement, open);
      var close := MatchingParen(statement, open).value;
      RegularDeclarationIsPlain(Trim(statement[..open]));
      ParametersArePlain(TopLevel(statement[open + 1..close], ','));
    }
  }

  lemma StructIsPlain(statement: string)
    requires Balanced(BRACES, statement) && '{' in statement
    ensures ParseStructTypedef(statement).Ok? ==> PlainStruct(ParseStructTypedef(statement).value)
  {
    FindFirstIsFirst(statement, '{', 0);
    var open := FindFirst(statement, '{', 0).value;
    OpenBeforeClose(statement, open);
    var close := FindLast(statement, '}').value;
    TokensAreWords(statement[..open], "");
    TokensAreWords(statement[close + 1..], "");
    RegularDeclarationsArePlain(FieldSources(statement[open + 1..close]));
  }

  lemma DeclaredIsPlain(statement: string)
    requires Balanced(BRACES, statement)
    ensures Declares(statement).Ok? ==> PlainDeclared(Declares(statement).value)
  {
    TrimBalanced(statement);
    var s := Trim(statement);
    FunctionIsPlain(s);
    if '{' in s {
      StructIsPlain(s);
    }
  }

  // ----- No owner hides in a callback -----

  /** Every angle bracket opens a borrow: it follows "wed", as in "Borrowed", and not "ned", as in "Owned". */
  ghost predicate OnlyBorrows(s: string) {
    forall i :: 0 <= i < |s| && s[i] == '<' ==> i >= 3 && s[i - 3] == 'w'
  }

  lemma BorrowsConcat(x: string, y: string)
    requires OnlyBorrows(x) && OnlyBorrows(y)
    ensures OnlyBorrows(x + y)
  {
    forall i | 0 <= i < |x + y| && (x + y)[i] == '<'
      ensures i >= 3 && (x + y)[i - 3] == 'w'
    {
      if i >= |x| {
        assert y[i - |x|] == '<';
        assert (x + y)[i - 3] == y[i - |x| - 3];
      }
    }
  }

  const OWNED := "Owned<"

  lemma BorrowsOwnNothing(s: string)
    requires OnlyBorrows(s)
    ensures !Contains(s, OWNED)
  {
    forall i {:trigger s[i..]} | 0 <= i <= |s|
      ensures !(OWNED <= s[i..])
    {
      if |s[i..]| >= 6 {
        assert s[i..][5] == s[i + 5] && s[i..][2] == s[i + 2];
        assert OWNED[5] == '<' && OWNED[2] == 'n';
      }
    }
  }

  lemma WordBorrows(s: string)
    requires IsWord(s)
    ensures OnlyBorrows(s)
  {
  }

  lemma BorrowedBorrows(base: string)
    requires IsWord(base)
    ensures OnlyBorrows("Borrowed<" + base + ">")
  {
    WordBorrows(base);
    assert "Borrowed<"[8] == '<' && "Borrowed<"[5] == 'w';
    BorrowsConcat("Borrowed<", base);
    BorrowsConcat("Borrowed<" + base, ">");
  }

  ghost predicate PlainScope(scope: Scope) {
    forall name :: name in scope.structNames ==> IsToken(name)
  }

  lemma ScalarBorrows(base: string, structNames: set<string>)
    requires forall name :: name in structNames ==> IsToken(name)
    ensures ScalarType(base, structNames).Ok? ==> OnlyBorrows(ScalarType(base, structNames).value)
  {
  }

  predicate InCallback(position: Position) {
    position.CallbackParameter? || position.CallbackReturn?
  }

  lemma PointerBorrows(t: CType, position: Position, scope: Scope)
    requires IsWord(t.base) && InCallback(position)
    ensures PointerType(t, position, scope).Ok? ==> OnlyBorrows(PointerType(t, position, scope).value)
  {
    BorrowedBorrows(t.base);
  }

  lemma {:induction false} CallbackBorrows(t: CType, position: Position, scope: Scope)
    requires PlainType(t) && PlainScope(scope) && (InCallback(position) || t.callback.Some?)
    ensures FunctionType(t, position, scope).Ok? ==> OnlyBorrows(FunctionType(t, position, scope).value)
    decreases t, 1, 0
  {
    if t.callback.Some? {
      var n := |t.callback.value.params|;
      CallbackParamsBorrow(t, n, scope);
      CallbackBorrows(t.callback.value.returnType, CallbackReturn, scope);
      var params := CallbackParams(t, n, scope);
      var result := FunctionType(t.callback.value.returnType, CallbackReturn, scope);
      if params.Ok? && result.Ok? {
        BorrowsConcat("extern \"C\" fn(", params.value);
        BorrowsConcat("extern \"C\" fn(" + params.value, ") -> ");
        BorrowsConcat("extern \"C\" fn(" + params.value + ") -> ", result.value);
      }
    } else if t.pointer {
      PointerBorrows(t, position, scope);
    } else {
      ScalarBorrows(t.base, scope.structNames);
    }
  }

  lemma {:induction false} CallbackParamsBorrow(t: CType, n: nat, scope: Scope)
    requires PlainType(t) && PlainScope(scope) && t.callback.Some? && n <= |t.callback.value.params|
    ensures CallbackParams(t, n, scope).Ok? ==> OnlyBorrows(CallbackParams(t, n, scope).value)
    decreases t, 0, n
  {
    if n > 0 {
      CallbackParamsBorrow(t, n - 1, scope);
      CallbackBorrows(t.callback.value.params[n - 1], CallbackParameter, scope);
      var front := CallbackParams(t, n - 1, scope);
      var last := FunctionType(t.callback.value.params[n - 1], CallbackParameter, scope);
      if front.Ok? && last.Ok? {
        var separator := if n > 1 then ", " else "";
        BorrowsConcat(front.value, separator);
        BorrowsConcat(front.value + separator, last.value);
      }
    }
  }

  // ----- Owners outside callbacks -----

  /** A type that mentions an owner is a pointer to an opaque type with a release: as a parameter of that release,
      or as a nullable result. */
  ghost predicate OwnsProperly(t: CType, position: Position, scope: Scope, text: string) {
    && t.callback.None? && t.pointer
    && t.base in scope.opaqueTypes && t.base in scope.releases
    && match position
       case Parameter(f) => scope.releases[t.base] == f && text == OWNED + t.base + ">"
       case Return => text == "Nullable<" + OWNED + t.base + ">>"
       case _ => false
  }

  lemma NullableOwnsNothing(base: string)
    requires IsWord(base)
    ensures !Contains("Nullable<" + base + ">", OWNED)
  {
    var s := "Nullable<" + base + ">";
    forall i {:trigger s[i..]} | 0 <= i <= |s|
      ensures !(OWNED <= s[i..])
    {
      if |s[i..]| >= 6 {
        assert s[i..][5] == s[i + 5] && s[i..][2] == s[i + 2];
        assert OWNED[5] == '<' && OWNED[2] == 'n';
        assert s[i + 5] == '<' ==> i + 5 == 8;
        assert s[5] == 'b';
      }
    }
  }

  lemma PointerOwners(t: CType, position: Position, scope: Scope)
    requires IsWord(t.base) && t.callback.None? && t.pointer
    ensures var text := PointerType(t, position, scope);
      text.Ok? && Contains(text.value, OWNED) ==> OwnsProperly(t, position, scope, text.value)
  {
    BorrowedBorrows(t.base);
    BorrowsOwnNothing("Borrowed<" + t.base + ">");
    BorrowsOwnNothing("CString");
    BorrowsOwnNothing("Opaque");
    NullableOwnsNothing(t.base);
    assert OWNED + t.base + ">" == "Owned<" + t.base + ">";
    assert "Nullable<" + OWNED == "Nullable<Owned<";
  }

  /** Every owner anywhere in the types of a binding, nullable results included, has a release; callbacks, scalars
      and structs never mention one. */
  lemma OwnersHaveReleases(t: CType, position: Position, scope: Scope)
    requires PlainType(t) && PlainScope(scope)
    ensures var text := FunctionType(t, position, scope);
      text.Ok? && Contains(text.value, OWNED) ==> OwnsProperly(t, position, scope, text.value)
  {
    if t.callback.Some? {
      CallbackBorrows(t, position, scope);
      if FunctionType(t, position, scope).Ok? {
        BorrowsOwnNothing(FunctionType(t, position, scope).value);
      }
    } else if t.pointer {
      PointerOwners(t, position, scope);
    } else {
      ScalarBorrows(t.base, scope.structNames);
      if ScalarType(t.base, scope.structNames).Ok? {
        BorrowsOwnNothing(ScalarType(t.base, scope.structNames).value);
      }
    }
  }

  lemma FieldsOwnNothing(t: CType, scope: Scope)
    requires PlainType(t) && PlainScope(scope)
    ensures var text := FieldType(t, scope.opaqueTypes, scope.structNames);
      text.Ok? ==> !Contains(text.value, OWNED)
  {
    BorrowedBorrows(t.base);
    BorrowsOwnNothing("Borrowed<" + t.base + ">");
    ScalarBorrows(t.base, scope.structNames);
    if ScalarType(t.base, scope.structNames).Ok? {
      BorrowsOwnNothing(ScalarType(t.base, scope.structNames).value);
    }
  }

  // ----- Exactly one owning parameter -----

  ghost predicate PlainHeaders(h: Headers) {
    && (forall f :: f in h.functions ==> PlainFunction(f))
    && (forall item :: item in h.structs ==> PlainStruct(item))
  }

  /** The parameter of `f` that renders as the owner of `name`. */
  ghost predicate RendersOwned(f: CFunction, k: nat, name: string, scope: Scope)
    requires k < |f.params|
  {
    FunctionType(f.params[k].valueType, Parameter(f.name), scope) == Ok(OWNED + name + ">")
  }

  /** What the code itself puts before the ownership of a release's parameter. */
  predicate Shadowed(t: CType) {
    t.base == "void" || (t.base == "char" && t.isConst)
  }

  lemma ReleaseRendersOwned(f: CFunction, name: string, scope: Scope)
    requires PlainFunction(f) && Releases(f, name, scope.opaqueTypes)
    requires name in scope.releases && scope.releases[name] == f.name
    ensures RendersOwned(f, 0, name, scope) <==> !Shadowed(f.params[0].valueType)
  {
    var t := f.params[0].valueType;
    assert OWNED + name + ">" == "Owned<" + name + ">";
    assert (OWNED + name + ">")[0] == 'O' && (OWNED + name + ">")[1] == 'w';
  }

  lemma OwnedNames(x: string, y: string)
    requires OWNED + x + ">" == OWNED + y + ">"
    ensures x == y
  {
    var s := OWNED + x + ">";
    assert x == s[|OWNED|..|s| - 1] && y == s[|OWNED|..|s| - 1];
  }

  lemma OwnedIsProper(f: CFunction, k: nat, name: string, scope: Scope)
    requires PlainFunction(f) && PlainScope(scope) && k < |f.params| && RendersOwned(f, k, name, scope)
    ensures f.params[k].valueType.base == name && name in scope.releases && scope.releases[name] == f.name
  {
    var text := OWNED + name + ">";
    assert OWNED <= text[0..];
    OwnersHaveReleases(f.params[k].valueType, Parameter(f.name), scope);
    OwnedNames(f.params[k].valueType.base, name);
  }

  /** A parameter renders as an owner exactly if it is that of the first function that releases the type, and the
      type is not one the renderer treats otherwise. */
  lemma OwnedParameterIff(functions: seq<CFunction>, scope: Scope, name: string, i: nat, k: nat)
    requires DistinctFunctions(functions) && PlainScope(scope)
    requires forall f :: f in functions ==> PlainFunction(f)
    requires scope.releases == InferReleases(functions, scope.opaqueTypes)
    requires i < |functions| && k < |functions[i].params|
    ensures RendersOwned(functions[i], k, name, scope) <==>
      IsFirstRelease(functions, scope.opaqueTypes, name, i) && !Shadowed(functions[i].params[k].valueType)
  {
    var first := ReleaseIsFirst(functions, scope.opaqueTypes, name);
    if RendersOwned(functions[i], k, name, scope) {
      OwnedIsProper(functions[i], k, name, scope);
      assert first == i && k == 0;
      ReleaseRendersOwned(functions[i], name, scope);
    }
    if IsFirstRelease(functions, scope.opaqueTypes, name, i) {
      assert name in scope.releases;
      assert first == i && k == 0;
      ReleaseRendersOwned(functions[i], name, scope);
    }
  }

  lemma {:induction false} GatheredIsPlain(declared: seq<Declared>)
    requires forall d :: d in declared ==> PlainDeclared(d)
    ensures PlainHeaders(Gathered(declared))
  {
    if declared != [] {
      var last := declared[|declared| - 1];
      assert last in declared;
      GatheredIsPlain(declared[..|declared| - 1]);
    }
  }

  lemma SortedStaysPlain(h: Headers)
    requires PlainHeaders(h)
    ensures PlainHeaders(SortedHeaders(h))
  {
    forall f | f in SortedHeaders(h).functions
      ensures PlainFunction(f)
    {
      SameElements(SortedHeaders(h).functions, h.functions, f);
    }
    forall item | item in SortedHeaders(h).structs
      ensures PlainStruct(item)
    {
      SameElements(SortedHeaders(h).structs, h.structs, item);
    }
  }

  lemma {:induction false} DistinctInAnyOrder(s: seq<CFunction>, t: seq<CFunction>)
    requires multiset(s) == multiset(t) && DistinctFunctions(s)
    ensures DistinctFunctions(t)
  {
    forall i, j | 0 <= i < j < |t|
      ensures t[i].name != t[j].name
    {
      if t[i] == t[j] {
        assert t == t[..i] + [t[i]] + t[i + 1..j] + [t[j]] + t[j + 1..];
        assert multiset(t)[t[i]] >= 2;
        NoRepeats(s, t[i]);
      }
      SameElements(s, t, t[i]);
      SameElements(s, t, t[j]);
    }
  }

  lemma {:induction false} NoRepeats(s: seq<CFunction>, f: CFunction)
    requires DistinctFunctions(s)
    ensures multiset(s)[f] <= 1
  {
    if s != [] {
      var n := |s| - 1;
      NoRepeats(s[..n], f);
      assert s == s[..n] + [s[n]];
      if s[n] == f {
        assert f !in s[..n];
        assert f !in multiset(s[..n]);
      }
    }
  }

  /** What a header's declarations become, and what their types are rendered in. */
  lemma BindingIsPlain(statements: seq<string>)
    requires AllBalanced(statements) && ParseAll(statements).Ok?
    ensures PlainHeaders(SortedHeaders(Gathered(ParseAll(statements).value)))
  {
    var declared := ParseAll(statements).value;
    CombinedIff(Parsed(statements));
    forall d | d in declared
      ensures PlainDeclared(d)
    {
      var i :| 0 <= i < |declared| && declared[i] == d;
      assert Parsed(statements)[i] == Ok(d);
      DeclaredIsPlain(statements[i]);
    }
    GatheredIsPlain(declared);
    SortedStaysPlain(Gathered(declared));
  }

  lemma ScopeIsPlain(h: Headers, releases: map<string, string>)
    requires PlainHeaders(h)
    ensures PlainScope(ScopeOf(h, releases))
  {
    forall name | name in NamesOf(h.structs)
      ensures IsToken(name)
    {
      var i :| 0 <= i < |h.structs| && h.structs[i].name == name;
      assert PlainStruct(h.structs[i]);
    }
  }

  /** For each opaque type with a release, other than `char` and `void`, one parameter in the whole binding is
      rendered as its owner: that of the function named on the line that declares the type. */
  lemma ExactlyOneOwner(statements: seq<string>, name: string) returns (i: nat)
    requires AllBalanced(statements) && ParseAll(statements).Ok?
    requires DistinctFunctions(Gathered(ParseAll(statements).value).functions)
    requires var h := SortedHeaders(Gathered(ParseAll(statements).value));
      name in InferReleases(h.functions, h.opaqueTypes) && name != "char" && name != "void"
    ensures var h := SortedHeaders(Gathered(ParseAll(statements).value));
      var releases := InferReleases(h.functions, h.opaqueTypes);
      var scope := ScopeOf(h, releases);
      && i < |h.functions| && |h.functions[i].params| == 1
      && OpaqueLine(name, releases) == "extern opaque type " + name + (" release " + h.functions[i].name) + "\n"
      && forall j: nat, k: nat :: j < |h.functions| && k < |h.functions[j].params| ==>
        (RendersOwned(h.functions[j], k, name, scope) <==> j == i && k == 0)
  {
    var h := SortedHeaders(Gathered(ParseAll(statements).value));
    var releases := InferReleases(h.functions, h.opaqueTypes);
    var scope := ScopeOf(h, releases);
    BindingIsPlain(statements);
    DistinctInAnyOrder(Gathered(ParseAll(statements).value).functions, h.functions);
    ScopeIsPlain(h, releases);
    i := ReleaseIsFirst(h.functions, h.opaqueTypes, name);
    forall j: nat, k: nat | j < |h.functions| && k < |h.functions[j].params|
      ensures RendersOwned(h.functions[j], k, name, scope) <==> j == i && k == 0
    {
      OwnedParameterIff(h.functions, scope, name, j, k);
    }
  }

  /** Wherever a binding mentions an owner, in a parameter or a result, the type is declared with a release; and a
      parameter owns only in that release. Fields and callbacks own nothing. */
  lemma EveryOwnerHasARelease(statements: seq<string>)
    requires AllBalanced(statements) && ParseAll(statements).Ok?
    ensures var h := SortedHeaders(Gathered(ParseAll(statements).value));
      var scope := ScopeOf(h, InferReleases(h.functions, h.opaqueTypes));
      && (forall f, k: nat :: f in h.functions && k < |f.params| ==>
        var text := FunctionType(f.params[k].valueType, Parameter(f.name), scope);
        text.Ok? && Contains(text.value, OWNED) ==>
          OwnsProperly(f.params[k].valueType, Parameter(f.name), scope, text.value))
      && (forall f :: f in h.functions ==>
        var text := FunctionType(f.returnType, Return, scope);
        text.Ok? && Contains(text.value, OWNED) ==> OwnsProperly(f.returnType, Return, scope, text.value))
      && (forall item, k: nat :: item in h.structs && k < |item.fields| ==>
        var text := FieldType(item.fields[k].valueType, scope.opaqueTypes, scope.structNames);
        text.Ok? ==> !Contains(text.value, OWNED))
  {
    var h := SortedHeaders(Gathered(ParseAll(statements).value));
    var scope := ScopeOf(h, InferReleases(h.functions, h.opaqueTypes));
    BindingIsPlain(statements);
    ScopeIsPlain(h, scope.releases);
    EveryOwnerIn(h, scope);
  }

  lemma EveryOwnerIn(h: Headers, scope: Scope)
    requires PlainHeaders(h) && PlainScope(scope)
    ensures forall f, k: nat :: f in h.functions && k < |f.params| ==>
      var text := FunctionType(f.params[k].valueType, Parameter(f.name), scope);
      text.Ok? && Contains(text.value, OWNED) ==>
        OwnsProperly(f.params[k].valueType, Parameter(f.name), scope, text.value)
    ensures forall f :: f in h.functions ==>
      var text := FunctionType(f.returnType, Return, scope);
      text.Ok? && Contains(text.value, OWNED) ==> OwnsProperly(f.returnType, Return, scope, text.value)
    ensures forall item, k: nat :: item in h.structs && k < |item.fields| ==>
      var text := FieldType(item.fields[k].valueType, scope.opaqueTypes, scope.structNames);
      text.Ok? ==> !Contains(text.value, OWNED)
  {
    forall f, k: nat | f in h.functions && k < |f.params|
      ensures var text := FunctionType(f.params[k].valueType, Parameter(f.name), scope);
        text.Ok? && Contains(text.value, OWNED) ==>
          OwnsProperly(f.params[k].valueType, Parameter(f.name), scope, text.value)
    {
      OwnersHaveReleases(f.params[k].valueType, Parameter(f.name), scope);
    }
    forall f | f in h.functions
      ensures var text := FunctionType(f.returnType, Return, scope);
        text.Ok? && Contains(text.value, OWNED) ==> OwnsProperly(f.returnType, Return, scope, text.value)
    {
      OwnersHaveReleases(f.returnType, Return, scope);
    }
    forall item, k: nat | item in h.structs && k < |item.fields|
      ensures var text := FieldType(item.fields[k].valueType, scope.opaqueTypes, scope.structNames);
        text.Ok? ==> !Contains(text.value, OWNED)
    {
      FieldsOwnNothing(item.fields[k].valueType, scope);
    }
  }
}
