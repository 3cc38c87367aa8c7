/** The lines of a binding, read as lists: what stands at which place. */
module RenderedLines {
  import opened Wrappers
  import opened Texts
  import opened HeaderScanner
  import opened HeaderInputs
  import opened Declarations
  import opened Bindings
  import opened Ownership
  import opened WrittenStatements

  // ----- The parameters of a function -----

  lemma {:induction false} JoinAppends(items: seq<string>, last: string, separator: string)
    ensures Join(items + [last], separator) == if items == [] then last else Join(items, separator) + separator + last
  {
    if |items| == 1 {
      assert (items + [last])[1..] == [last];
    } else if items != [] {
      assert (items + [last])[1..] == items[1..] + [last];
      JoinAppends(items[1..], last, separator);
    }
  }

  /** `item` is the name and the type of the parameter. */
  ghost predicate NamesParam(item: string, param: CDeclaration, f: string, scope: Scope) {
    var paramType := FunctionType(param.valueType, Parameter(f), scope);
    paramType.Ok? && item == param.name + ": " + paramType.value
  }

  ghost predicate NameParams(items: seq<string>, params: seq<CDeclaration>, f: string, scope: Scope) {
    |items| == |params| && forall k :: 0 <= k < |items| ==> NamesParam(items[k], params[k], f, scope)
  }

  lemma {:induction false} ParamsAreJoined(params: seq<CDeclaration>, f: string, scope: Scope)
    returns (items: seq<string>)
    requires ParamTexts(params, f, scope).Ok?
    ensures NameParams(items, params, f, scope) && ParamTexts(params, f, scope) == Ok(Join(items, ", "))
  {
    items := [];
    if params != [] {
      var n := |params| - 1;
      var front := ParamsAreJoined(params[..n], f, scope);
      items := front + [ParamText(params[n], f, scope).value];
      OneMoreParam(front, params, f, scope);
    }
  }

  lemma OneMoreParam(front: seq<string>, params: seq<CDeclaration>, f: string, scope: Scope)
    requires params != [] && ParamText(params[|params| - 1], f, scope).Ok?
    requires NameParams(front, params[..|params| - 1], f, scope)
    requires ParamTexts(params[..|params| - 1], f, scope) == Ok(Join(front, ", "))
    ensures var items := front + [ParamText(params[|params| - 1], f, scope).value];
      NameParams(items, params, f, scope) && ParamTexts(params, f, scope) == Ok(Join(items, ", "))
  {
    var n := |params| - 1;
    var last := ParamText(params[n], f, scope).value;
    JoinAppends(front, last, ", ");
    assert n == 0 ==> "" + "" + last == last;
    assert forall k :: 0 <= k < n ==> params[..n][k] == params[k];
  }

  lemma CharactersAreItem(text: string)
    requires IsTidy(text) && '(' !in text && ')' !in text && ',' !in text
    ensures IsItem(text)
  {
    PlainIsBalanced(PARENS, text);
  }

  lemma WordIsItem(word: string)
    requires IsWord(word)
    ensures IsItem(word) && '(' !in word && ')' !in word && ',' !in word
  {
    CharactersAreItem(word);
  }

  lemma ScalarIsItem(base: string, scope: Scope)
    requires IsWord(base) && PlainScope(scope)
    ensures ScalarType(base, scope.structNames).Ok? ==> IsItem(ScalarType(base, scope.structNames).value)
  {
    var text := ScalarType(base, scope.structNames);
    if text.Ok? {
      assert IsWord(text.value);
      WordIsItem(text.value);
    }
  }

  lemma HandleIsItem(before: string, base: string, after: string)
    requires IsWord(base) && IsTidy(before) && IsTidy(after)
    requires forall c :: c in before || c in after ==> c != '(' && c != ')' && c != ','
    ensures IsItem(before + base + after)
  {
    WordIsItem(base);
    CharactersAreItem(before + base + after);
  }

  predicate NamesHandle(text: string, base: string) {
    || text == "Owned<" + base + ">" || text == "Borrowed<" + base + ">"
    || text == "Nullable<" + base + ">" || text == "Nullable<Owned<" + base + ">>"
  }

  lemma HandleTextIsItem(text: string, base: string)
    requires IsWord(base) && NamesHandle(text, base)
    ensures IsItem(text)
  {
    if text == "Owned<" + base + ">" {
      HandleIsItem("Owned<", base, ">");
    } else if text == "Borrowed<" + base + ">" {
      HandleIsItem("Borrowed<", base, ">");
    } else if text == "Nullable<" + base + ">" {
      HandleIsItem("Nullable<", base, ">");
    } else {
      HandleIsItem("Nullable<Owned<", base, ">>");
    }
  }

  lemma PointerTexts(t: CType, position: Position, scope: Scope)
    ensures var text := PointerType(t, position, scope);
      text.Ok? ==> text.value == "CString" || text.value == "Opaque" || NamesHandle(text.value, t.base)
  {
  }

  lemma PointerIsItem(t: CType, position: Position, scope: Scope)
    requires IsWord(t.base)
    ensures PointerType(t, position, scope).Ok? ==> IsItem(PointerType(t, position, scope).value)
  {
    var text := PointerType(t, position, scope);
    PointerTexts(t, position, scope);
    if text.Ok? {
      if NamesHandle(text.value, t.base) {
        HandleTextIsItem(text.value, t.base);
      } else {
        WordIsItem(text.value);
      }
    }
  }

  const CALLBACK := "extern \"C\" fn"

  lemma CallbackTextIsItem(params: string, result: string)
    requires Balanced(PARENS, params) && IsItem(result)
    ensures IsItem(CALLBACK + ("(" + params + ")") + (" -> " + result))
  {
    var list, after := [PARENS.open] + params + [PARENS.close], " -> " + result;
    PlainIsBalanced(PARENS, CALLBACK);
    PlainIsBalanced(PARENS, " -> ");
    BalancedInside(PARENS, params);
    BalancedTogether(PARENS, " -> ", result);
    BalancedTogether(PARENS, CALLBACK, list);
    BalancedTogether(PARENS, CALLBACK + list, after);
    assert Balanced(PARENS, CALLBACK + list + after);
    ArrowIsUnsplit(params, result);
  }

  /** No comma of a callback is outside its own parentheses. */
  lemma ArrowIsUnsplit(params: string, result: string)
    requires Balanced(PARENS, params) && IsItem(result)
    ensures Unsplit(PARENS, CALLBACK + ("(" + params + ")") + (" -> " + result), 0, ',')
  {
    var list := [PARENS.open] + params + [PARENS.close];
    var before := CALLBACK + list + " -> ";
    var text := CALLBACK + ("(" + params + ")") + (" -> " + result);
    assert text == before + result;
    PlainIsBalanced(PARENS, CALLBACK);
    PlainIsBalanced(PARENS, " -> ");
    BalancedInside(PARENS, params);
    BalancedTogether(PARENS, CALLBACK, list);
    BalancedTogether(PARENS, CALLBACK + list, " -> ");
    EnclosedIsUnsplit(PARENS, CALLBACK, params, " -> ", ',');
    UnsplitTogether(before, result);
  }

  lemma UnsplitTogether(x: string, y: string)
    requires Unsplit(PARENS, x, 0, ',') && Unsplit(PARENS, y, 0, ',') && Depth(PARENS, x) == 0
    ensures Unsplit(PARENS, x + y, 0, ',')
  {
    var s := x + y;
    forall i | 0 <= i < |s| && s[i] == ','
      ensures Depth(PARENS, s[..i]) != 0
    {
      if i < |x| {
        assert s[..i] == x[..i];
      } else {
        assert s[..i] == x + y[..i - |x|];
        DepthConcat(PARENS, x, y[..i - |x|]);
        assert y[i - |x|] == ',';
      }
    }
  }

  lemma CallbackTypeIsItem(t: CType, position: Position, scope: Scope)
    requires t.callback.Some?
    requires var params := CallbackParams(t, |t.callback.value.params|, scope);
      params.Ok? ==> Balanced(PARENS, params.value)
    requires var result := FunctionType(t.callback.value.returnType, CallbackReturn, scope);
      result.Ok? ==> IsItem(result.value)
    ensures FunctionType(t, position, scope).Ok? ==> IsItem(FunctionType(t, position, scope).value)
  {
    var params := CallbackParams(t, |t.callback.value.params|, scope);
    var result := FunctionType(t.callback.value.returnType, CallbackReturn, scope);
    if params.Ok? && result.Ok? {
      CallbackTextIsItem(params.value, result.value);
      ArrowRegrouped(params.value, result.value);
    }
  }

  lemma ArrowRegrouped(params: string, result: string)
    ensures "extern \"C\" fn(" + params + ") -> " + result == CALLBACK + ("(" + params + ")") + (" -> " + result)
  {
    assert "extern \"C\" fn(" == CALLBACK + "(" && ") -> " == ")" + " -> ";
  }

  lemma {:induction false} TypeIsItem(t: CType, position: Position, scope: Scope)
    requires PlainType(t) && PlainScope(scope)
    ensures FunctionType(t, position, scope).Ok? ==> IsItem(FunctionType(t, position, scope).value)
    decreases t, 1, 0
  {
    if t.callback.Some? {
      CallbackParamsAreBalanced(t, |t.callback.value.params|, scope);
      TypeIsItem(t.callback.value.returnType, CallbackReturn, scope);
      CallbackTypeIsItem(t, position, scope);
    } else if t.pointer {
      PointerIsItem(t, position, scope);
    } else {
      ScalarIsItem(t.base, scope);
    }
  }

  lemma {:induction false} CallbackParamsAreBalanced(t: CType, n: nat, scope: Scope)
    requires PlainType(t) && PlainScope(scope) && t.callback.Some? && n <= |t.callback.value.params|
    ensures CallbackParams(t, n, scope).Ok? ==> Balanced(PARENS, CallbackParams(t, n, scope).value)
    decreases t, 0, n
  {
    if n == 0 {
      PlainIsBalanced(PARENS, "");
    } else {
      CallbackParamsAreBalanced(t, n - 1, scope);
      TypeIsItem(t.callback.value.params[n - 1], CallbackParameter, scope);
      var front := CallbackParams(t, n - 1, scope);
      var last := FunctionType(t.callback.value.params[n - 1], CallbackParameter, scope);
      if front.Ok? && last.Ok? {
        var comma := if n > 1 then ", " else "";
        PlainIsBalanced(PARENS, comma);
        BalancedTogether(PARENS, front.value, comma);
        BalancedTogether(PARENS, front.value + comma, last.value);
      }
    }
  }

  lemma ParamIsItem(param: CDeclaration, f: string, scope: Scope)
    requires PlainDeclaration(param) && PlainScope(scope)
    ensures ParamText(param, f, scope).Ok? ==> IsItem(ParamText(param, f, scope).value)
  {
    var paramType := FunctionType(param.valueType, Parameter(f), scope);
    TypeIsItem(param.valueType, Parameter(f), scope);
    if paramType.Ok? {
      WordIsItem(param.name);
      PlainIsBalanced(PARENS, param.name + ": ");
      BalancedTogether(PARENS, param.name + ": ", paramType.value);
      UnsplitTogether(param.name + ": ", paramType.value);
    }
  }

  lemma ItemsAreListed(items: seq<string>)
    requires AllItems(items)
    ensures NeverNegative(PARENS, Join(items, ", "))
    ensures if items == [] then Join(items, ", ") == "" else TopLevel(Join(items, ", "), ',') == items
  {
    if items == [] {
      PlainIsBalanced(PARENS, "");
    } else {
      ItemsAreSplit(" ", items);
      ItemsAreBalanced(" ", items);
      assert "," + " " == ", ";
    }
  }

  /** The list of a rendered function, split at its commas as any such list is, names the declared parameters in
      their order, each with its own type. */
  lemma FunctionLine(f: CFunction, scope: Scope) returns (items: seq<string>, list: string)
    requires PlainFunction(f) && PlainScope(scope) && FunctionText(f, scope).Ok?
    ensures NameParams(items, f.params, f.name, scope)
    ensures NeverNegative(PARENS, list)
    ensures if f.params == [] then list == "" else TopLevel(list, ',') == items
    ensures FunctionType(f.returnType, Return, scope).Ok?
    ensures var returnType := FunctionType(f.returnType, Return, scope).value;
      FunctionText(f, scope).value
        == "    fn " + f.name + "(" + list + ")" + (if returnType == "void" then "" else " -> " + returnType) + "\n"
  {
    items := ParamsAreJoined(f.params, f.name, scope);
    list := Join(items, ", ");
    forall k | 0 <= k < |items|
      ensures IsItem(items[k])
    {
      ParamIsItem(f.params[k], f.name, scope);
    }
    ItemsAreListed(items);
  }

  // ----- The types of a callback -----

  ghost predicate NameTypes(items: seq<string>, types: seq<CType>, scope: Scope) {
    && |items| == |types|
    && forall k :: 0 <= k < |items| ==> Ok(items[k]) == FunctionType(types[k], CallbackParameter, scope)
  }

  lemma {:induction false} TypesAreJoined(t: CType, n: nat, scope: Scope) returns (items: seq<string>)
    requires t.callback.Some? && n <= |t.callback.value.params| && CallbackParams(t, n, scope).Ok?
    ensures NameTypes(items, t.callback.value.params[..n], scope)
    ensures CallbackParams(t, n, scope) == Ok(Join(items, ", "))
    decreases n
  {
    items := [];
    if n > 0 {
      var front := TypesAreJoined(t, n - 1, scope);
      items := front + [FunctionType(t.callback.value.params[n - 1], CallbackParameter, scope).value];
      OneMoreType(front, t, n, scope);
      OneMoreTypeName(front, t.callback.value.params, n, scope);
    }
  }

  lemma OneMoreType(front: seq<string>, t: CType, n: nat, scope: Scope)
    requires t.callback.Some? && 0 < n <= |t.callback.value.params|
    requires FunctionType(t.callback.value.params[n - 1], CallbackParameter, scope).Ok?
    requires |front| == n - 1 && CallbackParams(t, n - 1, scope) == Ok(Join(front, ", "))
    ensures var items := front + [FunctionType(t.callback.value.params[n - 1], CallbackParameter, scope).value];
      CallbackParams(t, n, scope) == Ok(Join(items, ", "))
  {
    var last := FunctionType(t.callback.value.params[n - 1], CallbackParameter, scope).value;
    JoinAppends(front, last, ", ");
    assert n == 1 ==> "" + "" + last == last;
  }

  lemma OneMoreTypeName(front: seq<string>, types: seq<CType>, n: nat, scope: Scope)
    requires 0 < n <= |types| && NameTypes(front, types[..n - 1], scope)
    requires FunctionType(types[n - 1], CallbackParameter, scope).Ok?
    ensures NameTypes(front + [FunctionType(types[n - 1], CallbackParameter, scope).value], types[..n], scope)
  {
    assert forall k :: 0 <= k < n - 1 ==> types[..n][k] == types[..n - 1][k];
  }

  /** So does the list of a callback, which is followed by the type it returns. */
  lemma CallbackLine(t: CType, position: Position, scope: Scope) returns (items: seq<string>, list: string)
    requires PlainType(t) && PlainScope(scope) && t.callback.Some? && FunctionType(t, position, scope).Ok?
    ensures NameTypes(items, t.callback.value.params, scope)
    ensures NeverNegative(PARENS, list)
    ensures if t.callback.value.params == [] then list == "" else TopLevel(list, ',') == items
    ensures var result := FunctionType(t.callback.value.returnType, CallbackReturn, scope);
      result.Ok? && FunctionType(t, position, scope).value == CALLBACK + "(" + list + ") -> " + result.value
  {
    var types := t.callback.value.params;
    items := TypesAreJoined(t, |types|, scope);
    list := Join(items, ", ");
    assert types[..|types|] == types;
    forall k | 0 <= k < |items|
      ensures IsItem(items[k])
    {
      TypeIsItem(types[k], CallbackParameter, scope);
    }
    ItemsAreListed(items);
    assert "extern \"C\" fn(" == CALLBACK + "(";
  }

  // ----- Pointers -----

  /** A pointer becomes a C string exactly as a `const char *` parameter, an untyped handle exactly if it is a
      `void *`, and any other an opaque handle that names its base; what is left is refused. */
  lemma PointerMeaning(t: CType, position: Position, scope: Scope)
    requires t.callback.None? && t.pointer
    ensures var text, isText := FunctionType(t, position, scope), t.base == "char" && t.isConst && position.Parameter?;
      && (text == Ok("CString") <==> isText)
      && (text == Ok("Opaque") <==> t.base == "void")
      && (text.Err? <==>
        !isText && t.base != "void" && (t.base !in scope.opaqueTypes || position.CallbackReturn?))
      && (text.Ok? && !isText && t.base != "void" ==> NamesHandle(text.value, t.base))
  {
    var text := FunctionType(t, position, scope);
    HandlesAreNoWords(t.base);
    assert |"CString"| == 7 && |"Opaque"| == 6 && "char"[0] == 'c' && "void"[0] == 'v';
    if text.Ok? && !(t.base == "char" && t.isConst && position.Parameter?) && t.base != "void" {
      assert NamesHandle(text.value, t.base);
    }
  }

  lemma HandlesAreNoWords(base: string)
    ensures forall text :: NamesHandle(text, base) ==> text != "CString" && text != "Opaque"
  {
    forall text | NamesHandle(text, base)
      ensures text != "CString" && text != "Opaque"
    {
      assert text[|text| - 1] == '>';
      assert "CString"[6] == 'g' && "Opaque"[5] == 'e';
    }
  }

  // ----- The fields of a struct and the opaque types -----

  /** Each line with a line feed at its end. */
  function Ended(lines: seq<string>): string {
    if lines == [] then "" else lines[0] + "\n" + Ended(lines[1..])
  }

  lemma {:induction false} EndedAppends(lines: seq<string>, last: string)
    ensures Ended(lines + [last]) == Ended(lines) + (last + "\n")
  {
    if lines == [] {
      assert [last][1..] == [];
      assert Ended([last]) == last + "\n" + "";
    } else {
      assert (lines + [last])[1..] == lines[1..] + [last];
      EndedAppends(lines[1..], last);
    }
  }

  ghost predicate IsPlainLine(line: string) {
    '\n' !in line && '\r' !in line
  }

  lemma {:induction false} EndedIsRead(lines: seq<string>)
    requires forall k :: 0 <= k < |lines| ==> IsPlainLine(lines[k])
    ensures LinesOf(Ended(lines)) == lines
  {
    if lines != [] {
      EndedIsRead(lines[1..]);
      LinesAcross(lines[0], Ended(lines[1..]), "");
      assert "" + lines[0] == lines[0] && Chopped(lines[0]) == lines[0];
    }
  }

  /** `line` declares the field. */
  ghost predicate DeclaresField(line: string, field: CDeclaration, scope: Scope) {
    var fieldType := FieldType(field.valueType, scope.opaqueTypes, scope.structNames);
    fieldType.Ok? && line == "    pub " + field.name + ": " + fieldType.value
  }

  ghost predicate DeclareFields(lines: seq<string>, fields: seq<CDeclaration>, scope: Scope) {
    |lines| == |fields| && forall k :: 0 <= k < |lines| ==> DeclaresField(lines[k], fields[k], scope)
  }

  lemma {:induction false} FieldsAreEnded(fields: seq<CDeclaration>, scope: Scope) returns (lines: seq<string>)
    requires FieldLines(fields, scope).Ok?
    ensures DeclareFields(lines, fields, scope) && FieldLines(fields, scope) == Ok(Ended(lines))
  {
    lines := [];
    if fields != [] {
      var n := |fields| - 1;
      var front := FieldsAreEnded(fields[..n], scope);
      var fieldType := FieldType(fields[n].valueType, scope.opaqueTypes, scope.structNames).value;
      var last := "    pub " + fields[n].name + ": " + fieldType;
      lines := front + [last];
      EndedAppends(front, last);
      assert forall k :: 0 <= k < n ==> fields[..n][k] == fields[k];
    }
  }

  lemma FieldLineIsPlain(line: string, field: CDeclaration, scope: Scope)
    requires DeclaresField(line, field, scope) && PlainDeclaration(field) && PlainScope(scope)
    ensures IsPlainLine(line)
  {
    var fieldType := FieldType(field.valueType, scope.opaqueTypes, scope.structNames).value;
    ScalarIsPlain(field.valueType.base, scope);
    WordLacks(field.name, '\n');
    WordLacks(field.name, '\r');
    WordLacks(field.valueType.base, '\n');
    WordLacks(field.valueType.base, '\r');
  }

  lemma ScalarIsPlain(base: string, scope: Scope)
    requires IsWord(base) && PlainScope(scope)
    ensures ScalarType(base, scope.structNames).Ok? ==> IsPlainLine(ScalarType(base, scope.structNames).value)
  {
    WordLacks(base, '\n');
    WordLacks(base, '\r');
  }

  /** Between its braces the text of a struct has one line for each field, in the order of the fields. */
  lemma StructLines(item: CStruct, scope: Scope) returns (lines: seq<string>, inside: string)
    requires PlainStruct(item) && PlainScope(scope) && StructText(item, scope).Ok?
    ensures DeclareFields(lines, item.fields, scope) && LinesOf(inside) == lines
    ensures StructText(item, scope).value == "#[repr(C)]\npub struct " + item.name + " {\n" + inside + "}\n\n"
  {
    lines := FieldsAreEnded(item.fields, scope);
    inside := Ended(lines);
    forall k | 0 <= k < |lines|
      ensures IsPlainLine(lines[k])
    {
      FieldLineIsPlain(lines[k], item.fields[k], scope);
    }
    EndedIsRead(lines);
  }

  /** `line` declares the opaque type, with its release if it has one. */
  ghost predicate DeclaresOpaque(line: string, name: string, releases: map<string, string>) {
    if name in releases then line == "extern opaque type " + name + " release " + releases[name]
    else line == "extern opaque type " + name
  }

  lemma {:induction false} OpaquesAreEnded(names: seq<string>, releases: map<string, string>)
    returns (lines: seq<string>)
    ensures |lines| == |names| && forall k :: 0 <= k < |lines| ==> DeclaresOpaque(lines[k], names[k], releases)
    ensures OpaqueLines(names, releases) == Ended(lines)
  {
    lines := [];
    if names != [] {
      var n := |names| - 1;
      var front := OpaquesAreEnded(names[..n], releases);
      var release := if names[n] in releases then " release " + releases[names[n]] else "";
      var last := "extern opaque type " + names[n] + release;
      lines := front + [last];
      EndedAppends(front, last);
      assert OpaqueLine(names[n], releases) == last + "\n";
      assert "extern opaque type " + names[n] + "" == "extern opaque type " + names[n];
    }
  }

  /** One line for each opaque type, in the order of their names. */
  lemma OpaqueTypeLines(names: seq<string>, releases: map<string, string>) returns (lines: seq<string>)
    requires forall name :: name in names ==> IsPlainLine(name) && (name in releases ==> IsPlainLine(releases[name]))
    ensures LinesOf(OpaqueLines(names, releases)) == lines
    ensures |lines| == |names| && forall k :: 0 <= k < |lines| ==> DeclaresOpaque(lines[k], names[k], releases)
  {
    lines := OpaquesAreEnded(names, releases);
    forall k | 0 <= k < |lines|
      ensures IsPlainLine(lines[k])
    {
      assert DeclaresOpaque(lines[k], names[k], releases) && names[k] in names;
    }
    EndedIsRead(lines);
  }
}
