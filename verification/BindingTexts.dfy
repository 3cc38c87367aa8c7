/** The text of a binding, item by item: where an item's text ends can be told from the text itself. */
module BindingTexts {
  import opened Wrappers
  import opened Declarations
  import opened Bindings
  import opened Ownership

  // ----- Texts as a concatenation -----

  function Concat(texts: seq<string>): string {
    if texts == [] then "" else Concat(texts[..|texts| - 1]) + texts[|texts| - 1]
  }

  lemma {:induction false} ConcatSplits(x: seq<string>, y: seq<string>)
    ensures Concat(x + y) == Concat(x) + Concat(y)
    decreases |y|
  {
    if y == [] {
      assert x + y == x;
    } else {
      var n := |y| - 1;
      assert (x + y)[..|x| + n] == x + y[..n];
      ConcatSplits(x, y[..n]);
    }
  }

  /** All texts one after another, or the first error. */
  function Combining(results: seq<Result<string, HeaderError>>): Result<string, HeaderError> {
    var texts :- Combined(results);
    Ok(Concat(texts))
  }

  function FunctionResults(functions: seq<CFunction>, scope: Scope): (r: seq<Result<string, HeaderError>>)
    ensures |r| == |functions| && forall i :: 0 <= i < |r| ==> r[i] == FunctionText(functions[i], scope)
  {
    seq(|functions|, i requires 0 <= i < |functions| => FunctionText(functions[i], scope))
  }

  function StructResults(structs: seq<CStruct>, scope: Scope): (r: seq<Result<string, HeaderError>>)
    ensures |r| == |structs| && forall i :: 0 <= i < |r| ==> r[i] == StructText(structs[i], scope)
  {
    seq(|structs|, i requires 0 <= i < |structs| => StructText(structs[i], scope))
  }

  lemma {:induction false} FunctionTextsCombine(functions: seq<CFunction>, scope: Scope)
    ensures FunctionTexts(functions, scope) == Combining(FunctionResults(functions, scope))
  {
    var results := FunctionResults(functions, scope);
    if functions != [] {
      var n := |functions| - 1;
      FunctionTextsCombine(functions[..n], scope);
      assert FunctionResults(functions[..n], scope) == results[..n];
      CombineNext(results);
    }
  }

  lemma {:induction false} StructTextsCombine(structs: seq<CStruct>, scope: Scope)
    ensures StructTexts(structs, scope) == Combining(StructResults(structs, scope))
  {
    var results := StructResults(structs, scope);
    if structs != [] {
      var n := |structs| - 1;
      StructTextsCombine(structs[..n], scope);
      assert StructResults(structs[..n], scope) == results[..n];
      CombineNext(results);
    }
  }

  lemma CombineNext(results: seq<Result<string, HeaderError>>)
    requires results != []
    ensures var n := |results| - 1;
      Combining(results) ==
        match Combining(results[..n])
        case Err(e) => Err(e)
        case Ok(front) => match results[n] { case Err(e) => Err(e) case Ok(last) => Ok(front + last) }
  {
    var n := |results| - 1;
    if Combined(results[..n]).Ok? && results[n].Ok? {
      var front, last := Combined(results[..n]).value, results[n].value;
      assert (front + [last])[..|front|] == front;
    }
  }

  // ----- The mark at the end of an item -----

  /** A character no type is spelled with. */
  predicate IsMark(c: char) {
    c == '\n' || c == '}'
  }

  lemma WordLacks(s: string, c: char)
    requires IsToken(s) && IsMark(c)
    ensures c !in s
  {
  }

  lemma ScalarLacks(base: string, structNames: set<string>, c: char)
    requires IsWord(base) && IsMark(c)
    ensures ScalarType(base, structNames).Ok? ==> c !in ScalarType(base, structNames).value
  {
    WordLacks(base, c);
  }

  lemma PointerLacks(t: CType, position: Position, scope: Scope, c: char)
    requires IsWord(t.base) && IsMark(c)
    ensures PointerType(t, position, scope).Ok? ==> c !in PointerType(t, position, scope).value
  {
    WordLacks(t.base, c);
  }

  lemma {:induction false} TypeLacks(t: CType, position: Position, scope: Scope, c: char)
    requires PlainType(t) && IsMark(c)
    ensures FunctionType(t, position, scope).Ok? ==> c !in FunctionType(t, position, scope).value
    decreases t, 1, 0
  {
    if t.callback.Some? {
      CallbackLacks(t, |t.callback.value.params|, scope, c);
      TypeLacks(t.callback.value.returnType, CallbackReturn, scope, c);
    } else if t.pointer {
      PointerLacks(t, position, scope, c);
    } else {
      ScalarLacks(t.base, scope.structNames, c);
    }
  }

  lemma {:induction false} CallbackLacks(t: CType, n: nat, scope: Scope, c: char)
    requires PlainType(t) && IsMark(c) && t.callback.Some? && n <= |t.callback.value.params|
    ensures CallbackParams(t, n, scope).Ok? ==> c !in CallbackParams(t, n, scope).value
    decreases t, 0, n
  {
    if n > 0 {
      CallbackLacks(t, n - 1, scope, c);
      TypeLacks(t.callback.value.params[n - 1], CallbackParameter, scope, c);
    }
  }

  lemma {:induction false} ParamsLack(params: seq<CDeclaration>, f: string, scope: Scope, c: char)
    requires IsMark(c) && forall k :: 0 <= k < |params| ==> PlainDeclaration(params[k])
    ensures ParamTexts(params, f, scope).Ok? ==> c !in ParamTexts(params, f, scope).value
  {
    if params != [] {
      var n := |params| - 1;
      ParamsLack(params[..n], f, scope, c);
      WordLacks(params[n].name, c);
      TypeLacks(params[n].valueType, Parameter(f), scope, c);
    }
  }

  /** The text has one occurrence of `c`, and `tail` follows it. */
  ghost predicate Marked(text: string, c: char, tail: string) {
    && |text| >= 1 + |tail|
    && text[|text| - 1 - |tail|..] == [c] + tail
    && c !in text[..|text| - 1 - |tail|]
  }

  lemma MarkedAfter(before: string, c: char, tail: string)
    requires c !in before
    ensures Marked(before + ([c] + tail), c, tail)
  {
    var text := before + ([c] + tail);
    assert text[..|text| - 1 - |tail|] == before;
  }

  lemma FunctionIsMarked(f: CFunction, scope: Scope)
    requires PlainFunction(f) && FunctionText(f, scope).Ok?
    ensures Marked(FunctionText(f, scope).value, '\n', "")
  {
    WordLacks(f.name, '\n');
    ParamsLack(f.params, f.name, scope, '\n');
    TypeLacks(f.returnType, Return, scope, '\n');
    var params := ParamTexts(f.params, f.name, scope).value;
    var returnType := FunctionType(f.returnType, Return, scope).value;
    var before := "    fn " + f.name + "(" + params + ")" + (if returnType != "void" then " -> " + returnType else "");
    MarkedAfter(before, '\n', "");
    assert FunctionText(f, scope).value == before + "\n";
    assert ['\n'] + "" == "\n";
  }

  lemma FieldLacks(t: CType, scope: Scope, c: char)
    requires PlainType(t) && IsMark(c)
    ensures var text := FieldType(t, scope.opaqueTypes, scope.structNames); text.Ok? ==> c !in text.value
  {
    WordLacks(t.base, c);
    ScalarLacks(t.base, scope.structNames, c);
  }

  lemma {:induction false} FieldsLack(fields: seq<CDeclaration>, scope: Scope)
    requires forall k :: 0 <= k < |fields| ==> PlainDeclaration(fields[k])
    ensures FieldLines(fields, scope).Ok? ==> '}' !in FieldLines(fields, scope).value
  {
    if fields != [] {
      var n := |fields| - 1;
      FieldsLack(fields[..n], scope);
      WordLacks(fields[n].name, '}');
      FieldLacks(fields[n].valueType, scope, '}');
    }
  }

  lemma StructIsMarked(item: CStruct, scope: Scope)
    requires PlainStruct(item) && StructText(item, scope).Ok?
    ensures Marked(StructText(item, scope).value, '}', "\n\n")
  {
    WordLacks(item.name, '}');
    FieldsLack(item.fields, scope);
    var before := "#[repr(C)]\npub struct " + item.name + " {\n" + FieldLines(item.fields, scope).value;
    MarkedAfter(before, '}', "\n\n");
    assert StructText(item, scope).value == before + "}\n\n";
    assert ['}'] + "\n\n" == "}\n\n";
  }

  /** Whatever follows a marked text, its mark is where the character occurs first. */
  lemma MarkIsFirst(text: string, rest: string, c: char, tail: string)
    requires Marked(text, c, tail)
    ensures (text + rest)[|text| - 1 - |tail|] == c
    ensures forall i :: 0 <= i < |text| - 1 - |tail| ==> (text + rest)[i] != c
  {
    var at := |text| - 1 - |tail|;
    assert text[at] == ([c] + tail)[0];
    forall i | 0 <= i < at
      ensures (text + rest)[i] != c
    {
      assert text[i] in text[..at];
    }
  }

  /** Two marked texts that are the same in either order are the same. */
  lemma MarkedDoNotCommute(x: string, y: string, c: char, tail: string)
    requires Marked(x, c, tail) && Marked(y, c, tail) && x + y == y + x
    ensures x == y
  {
    MarkIsFirst(x, y, c, tail);
    MarkIsFirst(y, x, c, tail);
    assert |x| == |y|;
    assert x == (x + y)[..|x|] && y == (y + x)[..|y|];
  }
}
