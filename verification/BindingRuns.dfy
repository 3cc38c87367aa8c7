/** The generator as it is run: declarations collected one by one, text appended piece by piece. */
module BindingRuns {
  import opened Wrappers
  import opened HeaderScanner
  import opened Declarations
  import opened Bindings
  import opened HeaderInputs

  lemma CombinedNext<T>(results: seq<Result<T, HeaderError>>, i: nat)
    requires i < |results|
    ensures Combined(results[..i]).Ok? ==>
      Combined(results[..i + 1]) ==
        if results[i].Ok? then Ok(Combined(results[..i]).value + [results[i].value]) else Err(results[i].error)
  {
    assert results[..i + 1][..i] == results[..i];
  }

  lemma {:induction false} CombinedStops<T>(results: seq<Result<T, HeaderError>>, i: nat, e: HeaderError)
    requires i <= |results| && Combined(results[..i]) == Err(e)
    ensures Combined(results) == Err(e)
    decreases |results|
  {
    if i == |results| {
      assert results[..i] == results;
    } else {
      var n := |results| - 1;
      assert results[..n][..i] == results[..i];
      CombinedStops(results[..n], i, e);
    }
  }

  /** The loop over the statements of `generate_bindings_from_header`. */
  method CollectDeclarations(statements: seq<string>) returns (result: Result<Headers, HeaderError>)
    requires AllBalanced(statements)
    ensures result.Ok? <==> ParseAll(statements).Ok?
    ensures result.Ok? ==> result.value == Gathered(ParseAll(statements).value)
    ensures result.Err? ==> ParseAll(statements) == Err(result.error)
  {
    var h := NO_HEADERS;
    ghost var parsed := Parsed(statements);
    var i := 0;
    while i < |statements|
      invariant 0 <= i <= |statements|
      invariant Combined(parsed[..i]).Ok? && h == Gathered(Combined(parsed[..i]).value)
    {
      CombinedNext(parsed, i);
      var declared := Declares(statements[i]);
      if declared.Err? {
        CombinedStops(parsed, i + 1, declared.error);
        return Err(declared.error);
      }
      GatheredNext(
        Combined(parsed[..i]).value, Combined(parsed[..i]).value + [declared.value], declared.value);
      h := Add(h, declared.value);
      i := i + 1;
    }
    assert parsed[..i] == parsed;
    result := Ok(h);
  }

  /** `generate_bindings_from_header`, but for the provenance record. */
  method GenerateBindings(package: string, header: string) returns (result: Result<string, HeaderError>)
    ensures result == GeneratedFrom(package, header)
  {
    if !IsPackagePath(package) {
      return Err(BadPackage(package));
    }
    var stripped := StripCommentsAndDirectives(header);
    if stripped.None? {
      return Err(OpenComment);
    }
    var cleaned := stripped.value;
    var statements := SplitCStatements(cleaned);
    if statements.Err? {
      return Err(Unsplittable(statements.error));
    }
    StatementsAreBalanced(cleaned);
    var collected := CollectDeclarations(statements.value);
    if collected.Err? {
      return Err(collected.error);
    }
    var h := SortedHeaders(collected.value);
    var releases := InferReleaseFunctions(h.functions, h.opaqueTypes);
    result := RenderNomoBindings(package, h, releases);
  }

  // ----- Rendering -----

  method RenderOpaqueTypes(names: seq<string>, releases: map<string, string>) returns (out: string)
    ensures out == OpaqueLines(names, releases)
  {
    out := "";
    var i := 0;
    while i < |names|
      invariant 0 <= i <= |names| && out == OpaqueLines(names[..i], releases)
    {
      assert names[..i + 1][..i] == names[..i];
      out := out + OpaqueLine(names[i], releases);
      i := i + 1;
    }
    assert names[..i] == names;
  }

  lemma {:induction false} FieldsStop(fields: seq<CDeclaration>, scope: Scope, i: nat, e: HeaderError)
    requires i <= |fields| && FieldLines(fields[..i], scope) == Err(e)
    ensures FieldLines(fields, scope) == Err(e)
    decreases |fields|
  {
    if i == |fields| {
      assert fields[..i] == fields;
    } else {
      assert fields[..|fields| - 1][..i] == fields[..i];
      FieldsStop(fields[..|fields| - 1], scope, i, e);
    }
  }

  method RenderStruct(item: CStruct, scope: Scope) returns (result: Result<string, HeaderError>)
    ensures result == StructText(item, scope)
  {
    var fields := "";
    var i := 0;
    while i < |item.fields|
      invariant 0 <= i <= |item.fields| && FieldLines(item.fields[..i], scope) == Ok(fields)
    {
      assert item.fields[..i + 1][..i] == item.fields[..i];
      var fieldType := FieldType(item.fields[i].valueType, scope.opaqueTypes, scope.structNames);
      if fieldType.Err? {
        FieldsStop(item.fields, scope, i + 1, fieldType.error);
        return Err(fieldType.error);
      }
      fields := fields + ("    pub " + item.fields[i].name + ": " + fieldType.value + "\n");
      i := i + 1;
    }
    assert item.fields[..i] == item.fields;
    result := Ok("#[repr(C)]\npub struct " + item.name + " {\n" + fields + "}\n\n");
  }

  lemma {:induction false} StructsStop(structs: seq<CStruct>, scope: Scope, i: nat, e: HeaderError)
    requires i <= |structs| && StructTexts(structs[..i], scope) == Err(e)
    ensures StructTexts(structs, scope) == Err(e)
    decreases |structs|
  {
    if i == |structs| {
      assert structs[..i] == structs;
    } else {
      assert structs[..|structs| - 1][..i] == structs[..i];
      StructsStop(structs[..|structs| - 1], scope, i, e);
    }
  }

  method RenderStructs(structs: seq<CStruct>, scope: Scope) returns (result: Result<string, HeaderError>)
    ensures result == StructTexts(structs, scope)
  {
    var out := "";
    var i := 0;
    while i < |structs|
      invariant 0 <= i <= |structs| && StructTexts(structs[..i], scope) == Ok(out)
    {
      assert structs[..i + 1][..i] == structs[..i];
      var text := RenderStruct(structs[i], scope);
      if text.Err? {
        StructsStop(structs, scope, i + 1, text.error);
        return text;
      }
      out := out + text.value;
      i := i + 1;
    }
    assert structs[..i] == structs;
    result := Ok(out);
  }

  lemma {:induction false} ParamsStop(params: seq<CDeclaration>, f: string, scope: Scope, i: nat, e: HeaderError)
    requires i <= |params| && ParamTexts(params[..i], f, scope) == Err(e)
    ensures ParamTexts(params, f, scope) == Err(e)
    decreases |params|
  {
    if i == |params| {
      assert params[..i] == params;
    } else {
      assert params[..|params| - 1][..i] == params[..i];
      ParamsStop(params[..|params| - 1], f, scope, i, e);
    }
  }

  method RenderFunction(f: CFunction, scope: Scope) returns (result: Result<string, HeaderError>)
    ensures result == FunctionText(f, scope)
  {
    var params := "";
    var i := 0;
    while i < |f.params|
      invariant 0 <= i <= |f.params| && ParamTexts(f.params[..i], f.name, scope) == Ok(params)
    {
      assert f.params[..i + 1][..i] == f.params[..i];
      var text := ParamText(f.params[i], f.name, scope);
      if text.Err? {
        ParamsStop(f.params, f.name, scope, i + 1, text.error);
        return Err(text.error);
      }
      params := params + (if i > 0 then ", " else "") + text.value;
      i := i + 1;
    }
    assert f.params[..i] == f.params;
    var returnType := FunctionType(f.returnType, Return, scope);
    if returnType.Err? {
      return Err(returnType.error);
    }
    result := Ok("    fn " + f.name + "(" + params + ")"
      + (if returnType.value != "void" then " -> " + returnType.value else "") + "\n");
  }

  lemma {:induction false} FunctionsStop(functions: seq<CFunction>, scope: Scope, i: nat, e: HeaderError)
    requires i <= |functions| && FunctionTexts(functions[..i], scope) == Err(e)
    ensures FunctionTexts(functions, scope) == Err(e)
    decreases |functions|
  {
    if i == |functions| {
      assert functions[..i] == functions;
    } else {
      assert functions[..|functions| - 1][..i] == functions[..i];
      FunctionsStop(functions[..|functions| - 1], scope, i, e);
    }
  }

  method RenderFunctions(functions: seq<CFunction>, scope: Scope) returns (result: Result<string, HeaderError>)
    ensures result == FunctionTexts(functions, scope)
  {
    var out := "";
    var i := 0;
    while i < |functions|
      invariant 0 <= i <= |functions| && FunctionTexts(functions[..i], scope) == Ok(out)
    {
      assert functions[..i + 1][..i] == functions[..i];
      var text := RenderFunction(functions[i], scope);
      if text.Err? {
        FunctionsStop(functions, scope, i + 1, text.error);
        return text;
      }
      out := out + text.value;
      i := i + 1;
    }
    assert functions[..i] == functions;
    result := Ok(out);
  }

  /** `render_nomo_bindings`. */
  method RenderNomoBindings(package: string, h: Headers, releases: map<string, string>)
    returns (result: Result<string, HeaderError>)
    ensures result == Rendered(package, h, releases)
  {
    var scope := ScopeOf(h, releases);
    var out := "package " + package + "\n\n";
    var opaqueTypes := RenderOpaqueTypes(h.opaqueTypes, releases);
    out := out + opaqueTypes;
    out := out + if h.opaqueTypes == [] then "" else "\n";
    var structs := RenderStructs(h.structs, scope);
    if structs.Err? {
      return structs;
    }
    out := out + structs.value;
    var functions := RenderFunctions(h.functions, scope);
    if functions.Err? {
      return functions;
    }
    out := out + if h.functions == [] then "" else "extern \"C\" {\n" + functions.value + "}\n";
    result := Ok(out);
  }
}
