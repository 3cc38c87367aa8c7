/** From the declarations of a C header to the source of a Nomo binding. */
module Bindings {
  import opened Wrappers
  import opened Ordering
  import opened Texts
  import opened HeaderScanner
  import opened Declarations

  // ----- Collecting -----

  /** Opaque names are kept as an ordered set: sorted, each once. */
  datatype Headers = Headers(opaqueTypes: seq<string>, structs: seq<CStruct>, functions: seq<CFunction>)

  const NO_HEADERS := Headers([], [], [])

  function InsertName(name: string, names: seq<string>): seq<string> {
    if name in names then names else Insert(StringLeq, name, names)
  }

  function Add(h: Headers, d: Declared): Headers {
    match d
    case Blank => h
    case Opaque(name) => h.(opaqueTypes := InsertName(name, h.opaqueTypes))
    case Struct(item) => h.(structs := h.structs + [item])
    case Function(item) => h.(functions := h.functions + [item])
  }

  function Gathered(declared: seq<Declared>): Headers {
    if declared == [] then NO_HEADERS
    else Add(Gathered(declared[..|declared| - 1]), declared[|declared| - 1])
  }

  lemma GatheredNext(before: seq<Declared>, all: seq<Declared>, d: Declared)
    requires all == before + [d]
    ensures Gathered(all) == Add(Gathered(before), d)
  {
    assert all[..|all| - 1] == before;
  }

  function Declares(statement: string): Result<Declared, HeaderError>
    requires Balanced(BRACES, statement)
  {
    TrimBalanced(statement);
    ParseStatement(Trim(statement))
  }

  lemma Quiet(b: Brackets, s: string)
    requires b == BRACES && forall i :: 0 <= i < |s| ==> IsSpace(s[i])
    ensures Depth(b, s) == 0
  {
    if s != "" {
      Quiet(b, s[..|s| - 1]);
    }
  }

  /** Trimming takes no brace away. */
  lemma TrimBalanced(s: string)
    requires Balanced(BRACES, s)
    ensures Balanced(BRACES, Trim(s))
  {
    var before, after := TrimSplits(s);
    Quiet(BRACES, s[..before]);
    Quiet(BRACES, s[after..]);
    forall i | before <= i <= after
      ensures Depth(BRACES, s[before..after][..i - before]) == Depth(BRACES, s[..i])
    {
      DepthSplit(BRACES, s, before, i);
      assert s[before..after][..i - before] == s[before..i];
    }
    assert s[before..after][..after - before] == s[before..after];
    DepthSplit(BRACES, s, after, |s|);
    assert s[..|s|] == s && s[after..|s|] == s[after..];
    forall k | 0 <= k <= |Trim(s)|
      ensures Depth(BRACES, Trim(s)[..k]) >= 0
    {
      assert Trim(s)[..k] == s[before..after][..before + k - before];
      assert Depth(BRACES, s[..before + k]) >= 0;
    }
  }

  ghost predicate AllBalanced(statements: seq<string>) {
    forall i :: 0 <= i < |statements| ==> Balanced(BRACES, statements[i])
  }

  /** What the splitter hands on can be taken apart at its braces. */
  lemma StatementsAreBalanced(source: string)
    requires Statements(source).Ok?
    ensures AllBalanced(Statements(source).value)
  {
    var raw := Raw(BRACES, source, 0, ';');
    StatementsRebuild(source);
    forall k | 0 <= k < |raw| - 1
      ensures Balanced(BRACES, Trim(raw[k]))
    {
      RawNeverNegative(BRACES, source, ';', k);
      TrimBalanced(raw[k]);
    }
  }

  /** All the values, or the first error. */
  function Combined<T>(results: seq<Result<T, HeaderError>>): Result<seq<T>, HeaderError> {
    if results == [] then Ok([])
    else
      var n := |results| - 1;
      var front :- Combined(results[..n]);
      var last :- results[n];
      Ok(front + [last])
  }

  function Parsed(statements: seq<string>): (r: seq<Result<Declared, HeaderError>>)
    requires AllBalanced(statements)
    ensures |r| == |statements| && forall i :: 0 <= i < |r| ==> r[i] == Declares(statements[i])
  {
    seq(|statements|, i requires 0 <= i < |statements| && Balanced(BRACES, statements[i]) => Declares(statements[i]))
  }

  /** Every statement parsed, or the error of the first that does not. */
  function ParseAll(statements: seq<string>): Result<seq<Declared>, HeaderError>
    requires AllBalanced(statements)
  {
    Combined(Parsed(statements))
  }

  // ----- Releases -----

  function EndsWith(s: string, suffix: string): bool {
    |suffix| <= |s| && s[|s| - |suffix|..] == suffix
  }

  predicate HasReleaseName(name: string) {
    EndsWith(name, "_close") || EndsWith(name, "_free") || EndsWith(name, "_destroy") || EndsWith(name, "_release")
  }

  const RELEASE_SUFFIXES := ["_close", "_free", "_destroy", "_release"]

  ghost predicate IsStemWith(name: string, suffix: string) {
    exists stem :: name == stem + suffix
  }

  /** The release names are any names with one of the four endings. */
  lemma ReleaseNameIff(name: string)
    ensures HasReleaseName(name) <==> exists k :: 0 <= k < |RELEASE_SUFFIXES| && IsStemWith(name, RELEASE_SUFFIXES[k])
  {
    EndsWithIff(name, RELEASE_SUFFIXES[0]);
    EndsWithIff(name, RELEASE_SUFFIXES[1]);
    EndsWithIff(name, RELEASE_SUFFIXES[2]);
    EndsWithIff(name, RELEASE_SUFFIXES[3]);
  }

  lemma EndsWithIff(s: string, suffix: string)
    ensures EndsWith(s, suffix) <==> IsStemWith(s, suffix)
  {
    if EndsWith(s, suffix) {
      assert s == s[..|s| - |suffix|] + suffix;
    }
  }

  /** `f` takes one pointer to an opaque type, returns nothing, and is named as a release. */
  predicate Releases(f: CFunction, name: string, opaqueTypes: seq<string>) {
    && HasReleaseName(f.name)
    && |f.params| == 1
    && f.returnType.base == "void" && !f.returnType.pointer
    && f.params[0].valueType.pointer
    && f.params[0].valueType.base == name
    && name in opaqueTypes
  }

  /** For each opaque type the first function that releases it. */
  function InferReleases(functions: seq<CFunction>, opaqueTypes: seq<string>): map<string, string> {
    if functions == [] then map[]
    else
      var n := |functions| - 1;
      var releases := InferReleases(functions[..n], opaqueTypes);
      if |functions[n].params| == 1 then
        var name := functions[n].params[0].valueType.base;
        if Releases(functions[n], name, opaqueTypes) && name !in releases then releases[name := functions[n].name]
        else releases
      else releases
  }

  /** `infer_release_functions`. */
  method InferReleaseFunctions(functions: seq<CFunction>, opaqueTypes: seq<string>)
    returns (releases: map<string, string>)
    ensures releases == InferReleases(functions, opaqueTypes)
  {
    releases := map[];
    var i := 0;
    while i < |functions|
      invariant 0 <= i <= |functions|
      invariant releases == InferReleases(functions[..i], opaqueTypes)
    {
      var f := functions[i];
      assert functions[..i + 1][..i] == functions[..i];
      i := i + 1;
      if |f.params| != 1 {
        continue;
      }
      var name := f.params[0].valueType.base;
      if HasReleaseName(f.name) && f.returnType.base == "void" && !f.returnType.pointer
        && f.params[0].valueType.pointer && name in opaqueTypes {
        if name !in releases {
          releases := releases[name := f.name];
        }
      }
    }
    assert functions[..i] == functions;
  }

  ghost predicate IsFirstRelease(functions: seq<CFunction>, opaqueTypes: seq<string>, name: string, i: int) {
    && 0 <= i < |functions|
    && Releases(functions[i], name, opaqueTypes)
    && forall j :: 0 <= j < i ==> !Releases(functions[j], name, opaqueTypes)
  }

  /** The release recorded for `name`, if any, is that of the first function that releases it. */
  ghost predicate RecordsFirst(
    functions: seq<CFunction>, opaqueTypes: seq<string>, name: string, releases: map<string, string>, i: int)
  {
    if name in releases then IsFirstRelease(functions, opaqueTypes, name, i) && releases[name] == functions[i].name
    else forall j :: 0 <= j < |functions| ==> !Releases(functions[j], name, opaqueTypes)
  }

  lemma RecordsFirstOfMore(
    before: seq<CFunction>, f: CFunction, opaqueTypes: seq<string>, name: string, releases: map<string, string>, i: int)
    requires RecordsFirst(before, opaqueTypes, name, releases, i)
    ensures name in releases || !Releases(f, name, opaqueTypes) ==>
      RecordsFirst(before + [f], opaqueTypes, name, releases, i)
    ensures name !in releases && Releases(f, name, opaqueTypes) ==>
      IsFirstRelease(before + [f], opaqueTypes, name, |before|)
  {
    var all := before + [f];
    assert forall j :: 0 <= j < |before| ==> all[j] == before[j];
    assert all[|before|] == f;
  }

  lemma ReleasesAfter(functions: seq<CFunction>, opaqueTypes: seq<string>, name: string)
    requires functions != []
    ensures var before, f := functions[..|functions| - 1], functions[|functions| - 1];
      var releases, all := InferReleases(before, opaqueTypes), InferReleases(functions, opaqueTypes);
      if name !in releases && Releases(f, name, opaqueTypes) then name in all && all[name] == f.name
      else (name in all <==> name in releases) && (name in all ==> all[name] == releases[name])
  {
  }

  /** A release is recorded exactly for the types some function releases, and it is the first of them. */
  lemma {:induction false} ReleaseIsFirst(functions: seq<CFunction>, opaqueTypes: seq<string>, name: string)
    returns (i: int)
    ensures RecordsFirst(functions, opaqueTypes, name, InferReleases(functions, opaqueTypes), i)
  {
    i := 0;
    if functions != [] {
      var n := |functions| - 1;
      var before, f := functions[..n], functions[n];
      i := ReleaseIsFirst(before, opaqueTypes, name);
      assert functions == before + [f];
      RecordsFirstOfMore(before, f, opaqueTypes, name, InferReleases(before, opaqueTypes), i);
      ReleasesAfter(functions, opaqueTypes, name);
      if name !in InferReleases(before, opaqueTypes) && Releases(f, name, opaqueTypes) {
        i := n;
      }
    }
  }

  // ----- Rendering -----

  datatype Position = Parameter(function': string) | Return | CallbackParameter | CallbackReturn

  function ScalarType(base: string, structNames: set<string>): Result<string, HeaderError> {
    if base == "void" then Ok("void")
    else if base == "int" || base == "int32_t" then Ok("i32")
    else if base == "uint32_t" then Ok("u32")
    else if base == "int64_t" then Ok("i64")
    else if base == "uint64_t" || base == "size_t" then Ok("u64")
    else if base == "double" then Ok("f64")
    else if base == "bool" || base == "_Bool" then Ok("bool")
    else if base == "char32_t" then Ok("char")
    else if base in structNames then Ok(base)
    else Err(UnsupportedScalar(base))
  }

  function FieldType(t: CType, opaqueTypes: seq<string>, structNames: set<string>): Result<string, HeaderError> {
    if t.callback.Some? then Err(CallbackField)
    else if t.pointer then
      if t.base in opaqueTypes then Ok("Borrowed<" + t.base + ">") else Err(PointerField(t.base))
    else ScalarType(t.base, structNames)
  }

  /** The names the rendering of a type looks up. */
  datatype Scope = Scope(opaqueTypes: seq<string>, structNames: set<string>, releases: map<string, string>)

  function PointerType(t: CType, position: Position, scope: Scope): Result<string, HeaderError> {
    if t.base == "char" && t.isConst && position.Parameter? then Ok("CString")
    else if t.base == "void" then Ok("Opaque")
    else if t.base in scope.opaqueTypes then
      match position
      case Parameter(f) =>
        if t.base in scope.releases && scope.releases[t.base] == f then Ok("Owned<" + t.base + ">")
        else Ok("Borrowed<" + t.base + ">")
      case CallbackParameter => Ok("Borrowed<" + t.base + ">")
      case Return =>
        if t.base in scope.releases then Ok("Nullable<Owned<" + t.base + ">>") else Ok("Nullable<" + t.base + ">")
      case CallbackReturn => Err(OpaqueCallbackReturn(t.base))
    else Err(UnsupportedPointer(t.base))
  }

  function FunctionType(t: CType, position: Position, scope: Scope): Result<string, HeaderError>
    decreases t, 1, 0
  {
    if t.callback.Some? then
      var params :- CallbackParams(t, |t.callback.value.params|, scope);
      var result :- FunctionType(t.callback.value.returnType, CallbackReturn, scope);
      Ok("extern \"C\" fn(" + params + ") -> " + result)
    else if t.pointer then PointerType(t, position, scope)
    else ScalarType(t.base, scope.structNames)
  }

  /** The first `n` parameters of a callback. */
  function CallbackParams(t: CType, n: nat, scope: Scope): Result<string, HeaderError>
    requires t.callback.Some? && n <= |t.callback.value.params|
    decreases t, 0, n
  {
    if n == 0 then Ok("")
    else
      var front :- CallbackParams(t, n - 1, scope);
      var last :- FunctionType(t.callback.value.params[n - 1], CallbackParameter, scope);
      Ok(front + (if n > 1 then ", " else "") + last)
  }

  function OpaqueLine(name: string, releases: map<string, string>): string {
    "extern opaque type " + name + (if name in releases then " release " + releases[name] else "") + "\n"
  }

  function OpaqueLines(names: seq<string>, releases: map<string, string>): string {
    if names == [] then ""
    else OpaqueLines(names[..|names| - 1], releases) + OpaqueLine(names[|names| - 1], releases)
  }

  function FieldLines(fields: seq<CDeclaration>, scope: Scope): Result<string, HeaderError> {
    if fields == [] then Ok("")
    else
      var n := |fields| - 1;
      var front :- FieldLines(fields[..n], scope);
      var fieldType :- FieldType(fields[n].valueType, scope.opaqueTypes, scope.structNames);
      Ok(front + ("    pub " + fields[n].name + ": " + fieldType + "\n"))
  }

  function StructText(item: CStruct, scope: Scope): Result<string, HeaderError> {
    var fields :- FieldLines(item.fields, scope);
    Ok("#[repr(C)]\npub struct " + item.name + " {\n" + fields + "}\n\n")
  }

  function StructTexts(structs: seq<CStruct>, scope: Scope): Result<string, HeaderError> {
    if structs == [] then Ok("")
    else
      var n := |structs| - 1;
      var front :- StructTexts(structs[..n], scope);
      var last :- StructText(structs[n], scope);
      Ok(front + last)
  }

  function ParamText(param: CDeclaration, f: string, scope: Scope): Result<string, HeaderError> {
    var paramType :- FunctionType(param.valueType, Parameter(f), scope);
    Ok(param.name + ": " + paramType)
  }

  function ParamTexts(params: seq<CDeclaration>, f: string, scope: Scope): Result<string, HeaderError> {
    if params == [] then Ok("")
    else
      var n := |params| - 1;
      var front :- ParamTexts(params[..n], f, scope);
      var last :- ParamText(params[n], f, scope);
      Ok(front + (if n > 0 then ", " else "") + last)
  }

  function FunctionText(f: CFunction, scope: Scope): Result<string, HeaderError> {
    var params :- ParamTexts(f.params, f.name, scope);
    var returnType :- FunctionType(f.returnType, Return, scope);
    Ok("    fn " + f.name + "(" + params + ")" + (if returnType != "void" then " -> " + returnType else "") + "\n")
  }

  function FunctionTexts(functions: seq<CFunction>, scope: Scope): Result<string, HeaderError> {
    if functions == [] then Ok("")
    else
      var n := |functions| - 1;
      var front :- FunctionTexts(functions[..n], scope);
      var last :- FunctionText(functions[n], scope);
      Ok(front + last)
  }

  function NamesOf(structs: seq<CStruct>): set<string> {
    set i | 0 <= i < |structs| :: structs[i].name
  }

  function ScopeOf(h: Headers, releases: map<string, string>): Scope {
    Scope(h.opaqueTypes, NamesOf(h.structs), releases)
  }

  /** The whole binding source. */
  function Rendered(package: string, h: Headers, releases: map<string, string>): Result<string, HeaderError> {
    var scope := ScopeOf(h, releases);
    var structs :- StructTexts(h.structs, scope);
    var functions :- FunctionTexts(h.functions, scope);
    Ok("package " + package + "\n\n"
      + OpaqueLines(h.opaqueTypes, releases) + (if h.opaqueTypes == [] then "" else "\n")
      + structs
      + (if h.functions == [] then "" else "extern \"C\" {\n" + functions + "}\n"))
  }

  function ByStructName(): (CStruct, CStruct) -> bool {
    ByName((item: CStruct) => item.name)
  }

  function ByFunctionName(): (CFunction, CFunction) -> bool {
    ByName((f: CFunction) => f.name)
  }

  function SortedHeaders(h: Headers): Headers {
    h.(structs := Sort(ByStructName(), h.structs), functions := Sort(ByFunctionName(), h.functions))
  }

  /** The binding for a list of statements. */
  function BindingSource(package: string, statements: seq<string>): Result<string, HeaderError>
    requires AllBalanced(statements)
  {
    var declared :- ParseAll(statements);
    var h := SortedHeaders(Gathered(declared));
    Rendered(package, h, InferReleases(h.functions, h.opaqueTypes))
  }

  /** The binding for a header without comments and directives. */
  function Generated(package: string, cleaned: string): Result<string, HeaderError> {
    match Statements(cleaned)
    case Err(reason) => Err(Unsplittable(reason))
    case Ok(statements) =>
      StatementsAreBalanced(cleaned);
      BindingSource(package, statements)
  }
}
