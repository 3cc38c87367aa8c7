/** Whole headers: whatever declarations are written, the binding is rendered from just those. */
module WrittenHeaders {
  import opened Wrappers
  import opened Texts
  import opened HeaderScanner
  import opened HeaderInputs
  import opened Declarations
  import opened Bindings
  import opened BindingOrder
  import opened OrderVisibility
  import opened HeaderOrder
  import opened WrittenDeclarations
  import opened WrittenStatements

  // ----- One statement -----

  ghost predicate IsWritten(d: WrittenDeclaration) {
    match d
    case OpaqueTypedef(name) => IsWord(name)
    case StructTypedef(name, fields) => IsWord(name) && fields != [] && AllNamed(fields)
    case Prototype(n, params) => IsNamed(n) && AllParams(params)
  }

  lemma {:induction false} LastWordIsRead(s: string, current: string)
    requires s != "" && IsWordChar(s[|s| - 1])
    ensures TokensFrom(s, current) != []
  {
    if |s| == 1 {
      assert TokensFrom(s[1..], current + [s[0]]) == [current + [s[0]]];
    } else if IsWordChar(s[0]) {
      LastWordIsRead(s[1..], current + [s[0]]);
    } else {
      LastWordIsRead(s[1..], "");
    }
  }

  ghost predicate StartsAsTypedef(tokens: seq<string>) {
    |tokens| > 2 && tokens[0] == "typedef" && tokens[1] == "struct"
  }

  /** After `typedef` and `struct` something is left to be read. */
  lemma TypedefHasMoreTokens(text: string)
    requires text != "" && IsWordChar(text[|text| - 1])
    ensures TYPEDEF <= text ==> StartsAsTypedef(Tokens(text))
  {
    if TYPEDEF <= text {
      var rest := text[|TYPEDEF|..];
      assert text == TYPEDEF + rest;
      assert TYPEDEF[|TYPEDEF| - 1] == ' ';
      TokensOfTypedef(rest);
      LastWordIsRead(rest, "");
    }
  }

  lemma NamedIsNoTypedef(s: Style, n: WrittenName)
    requires IsStyle(s) && IsNamed(n)
    ensures !(TYPEDEF <= NamedText(s, n))
  {
    var text, tokens := NamedText(s, n), TypeTokens(n.valueType) + [n.name];
    assert text[|text| - 1] == n.name[|n.name| - 1];
    TypedefHasMoreTokens(text);
    TokensOfNamed(s, n);
    assert "*" != "struct" && "const" != "typedef";
    assert !StartsAsTypedef(tokens);
  }

  lemma PrototypeIsNoTypedef(s: Style, n: WrittenName, params: seq<WrittenParam>)
    requires IsStyle(s) && IsNamed(n)
    ensures !(TYPEDEF <= DeclarationText(s, Prototype(n, params)))
  {
    var head, text := NamedText(s, n), DeclarationText(s, Prototype(n, params));
    NamedIsNoTypedef(s, n);
    assert text == head + ("(" + ListText(s, SpelledParams(s, params)) + ")");
    assert text[|head|] == '(' && text[..|head|] == head;
    assert '(' !in TYPEDEF;
  }

  lemma PrototypeIsPlain(s: Style, n: WrittenName, params: seq<WrittenParam>)
    requires IsStyle(s) && IsNamed(n) && AllParams(params)
    ensures var text := DeclarationText(s, Prototype(n, params));
      IsTidy(text) && '{' !in text && '}' !in text && ';' !in text
  {
    NamedIsItem(s, n);
    PrototypeLacks(s, n, params, '{');
    PrototypeLacks(s, n, params, '}');
    PrototypeLacks(s, n, params, ';');
    var text := DeclarationText(s, Prototype(n, params));
    assert text[0] == NamedText(s, n)[0] && text[|text| - 1] == ')';
  }

  lemma PlainIsDeclaration(text: string)
    requires '{' !in text && '}' !in text && ';' !in text
    ensures IsDeclaration(text)
  {
    PlainIsBalanced(BRACES, text);
  }

  lemma BracedIsDeclaration(before: string, inside: string, after: string)
    requires '{' !in before && '}' !in before && '{' !in inside && '}' !in inside && '{' !in after && '}' !in after
    requires ';' !in before && ';' !in after
    ensures IsDeclaration(before + "{" + inside + "}" + after)
  {
    StructIsBalanced(before, inside, after);
    PlainIsBalanced(BRACES, before);
    PlainIsBalanced(BRACES, inside);
    EnclosedIsUnsplit(BRACES, before, inside, after, ';');
    BracedRegrouped(before, inside, after);
  }

  lemma BracedRegrouped(before: string, inside: string, after: string)
    ensures before + "{" + inside + "}" + after == before + ([BRACES.open] + inside + [BRACES.close]) + after
  {
  }

  lemma StructIsDeclaration(s: Style, name: string, fields: seq<WrittenName>)
    requires IsStyle(s) && IsWord(name) && AllNamed(fields)
    ensures IsDeclaration(DeclarationText(s, StructTypedef(name, fields)))
  {
    WordHasNoBraces(s, name);
    FieldsHaveNoBraces(s, fields);
    BracedIsDeclaration(TYPEDEF + (name + s.gap), FieldsText(s, fields), s.gap + name);
  }

  lemma DeclarationIsDeclaration(s: Style, d: WrittenDeclaration)
    requires IsStyle(s) && IsWritten(d)
    ensures IsDeclaration(DeclarationText(s, d)) && IsTidy(DeclarationText(s, d))
  {
    var text := DeclarationText(s, d);
    match d
    case OpaqueTypedef(name) =>
      WordHasNoBraces(s, name);
      assert text[0] == 't' && text[|text| - 1] == name[|name| - 1];
      PlainIsDeclaration(text);
    case StructTypedef(name, fields) =>
      StructIsDeclaration(s, name, fields);
      assert text[0] == 't' && text[|text| - 1] == name[|name| - 1];
    case Prototype(n, params) =>
      PrototypeIsPlain(s, n, params);
      PlainIsDeclaration(text);
  }

  lemma OpaqueStatement(text: string, name: string)
    requires Balanced(BRACES, text) && TYPEDEF <= text && '{' !in text && ParseOpaqueTypedef(text) == Ok(name)
    ensures ParseStatement(text) == Ok(Opaque(name))
  {
  }

  lemma StructStatement(text: string, item: CStruct)
    requires Balanced(BRACES, text) && TYPEDEF <= text && '{' in text && ParseStructTypedef(text) == Ok(item)
    ensures ParseStatement(text) == Ok(Struct(item))
  {
  }

  lemma FunctionStatement(text: string, f: CFunction)
    requires Balanced(BRACES, text) && text != "" && !(TYPEDEF <= text) && ParseFunction(text) == Ok(f)
    ensures ParseStatement(text) == Ok(Function(f))
  {
  }

  lemma TypedefStarts(s: Style, d: WrittenDeclaration)
    requires !d.Prototype?
    ensures TYPEDEF <= DeclarationText(s, d)
  {
  }

  /** Whatever statement is written, the declaration it stands for is read. */
  lemma StatementIsRead(s: Style, d: WrittenDeclaration)
    requires IsStyle(s) && IsWritten(d) && Balanced(BRACES, DeclarationText(s, d))
    ensures ParseStatement(DeclarationText(s, d)) == Ok(Meant(d))
  {
    match d
    case OpaqueTypedef(name) =>
      WordHasNoBraces(s, name);
      OpaqueIsRead(s, name);
      TypedefStarts(s, d);
      OpaqueStatement(DeclarationText(s, d), name);
    case StructTypedef(name, fields) =>
      StructIsRead(s, name, fields);
      TypedefStarts(s, d);
      StructStatement(DeclarationText(s, d), CStruct(name, MeantFields(fields)));
    case Prototype(n, params) =>
      PrototypeIsPlain(s, n, params);
      PrototypeIsNoTypedef(s, n, params);
      PrototypeIsRead(s, n, params);
      FunctionStatement(
        DeclarationText(s, d), CFunction(n.name, MeantType(n.valueType), MeantParams(params)));
  }

  // ----- The header -----

  ghost predicate AllWritten(ds: seq<WrittenDeclaration>) {
    forall k :: 0 <= k < |ds| ==> IsWritten(ds[k])
  }

  function Meants(ds: seq<WrittenDeclaration>): (r: seq<Declared>)
    ensures |r| == |ds| && forall k :: 0 <= k < |r| ==> r[k] == Meant(ds[k])
  {
    seq(|ds|, k requires 0 <= k < |ds| => Meant(ds[k]))
  }

  function DeclarationTexts(s: Style, ds: seq<WrittenDeclaration>): (r: seq<string>)
    ensures |r| == |ds| && forall k :: 0 <= k < |r| ==> r[k] == s.pad + DeclarationText(s, ds[k])
  {
    seq(|ds|, k requires 0 <= k < |ds| => s.pad + DeclarationText(s, ds[k]))
  }

  /** Each declaration with its semicolon, and white space between. */
  function HeaderText(s: Style, ds: seq<WrittenDeclaration>, tail: string): string {
    Written(DeclarationTexts(s, ds), tail)
  }

  lemma PaddedIsDeclaration(pad: string, text: string)
    requires IsBlank(pad) && IsDeclaration(text)
    ensures IsDeclaration(pad + text)
  {
    BlankHasNone(pad);
    PlainIsBalanced(BRACES, pad);
    BalancedTogether(BRACES, pad, text);
    var all := pad + text;
    forall i | 0 <= i < |all| && all[i] == ';'
      ensures Depth(BRACES, all[..i]) != 0
    {
      var j := i - |pad|;
      assert 0 <= j && text[j] == ';';
      assert all[..i] == pad + text[..j];
      DepthConcat(BRACES, pad, text[..j]);
    }
  }

  lemma PaddedIsRead(s: Style, d: WrittenDeclaration)
    requires IsStyle(s) && IsWritten(d)
    ensures IsDeclaration(s.pad + DeclarationText(s, d))
    ensures Trim(s.pad + DeclarationText(s, d)) == DeclarationText(s, d)
    ensures Balanced(BRACES, DeclarationText(s, d)) && Declares(DeclarationText(s, d)) == Ok(Meant(d))
  {
    var text := DeclarationText(s, d);
    DeclarationIsDeclaration(s, d);
    PaddedIsDeclaration(s.pad, text);
    TrimOfTidy(s.pad, text);
    TidyIsTrimmed(text);
    TrimBalanced(text);
    StatementIsRead(s, d);
  }

  lemma StatementsAreRead(s: Style, ds: seq<WrittenDeclaration>)
    requires IsStyle(s) && AllWritten(ds)
    ensures AllDeclarations(DeclarationTexts(s, ds)) && AllBalanced(Trimmed(DeclarationTexts(s, ds)))
    ensures ParseAll(Trimmed(DeclarationTexts(s, ds))) == Ok(Meants(ds))
  {
    var texts := DeclarationTexts(s, ds);
    forall k | 0 <= k < |ds|
      ensures IsDeclaration(texts[k]) && Balanced(BRACES, Trim(texts[k]))
      ensures Declares(Trim(texts[k])) == Ok(Meant(ds[k]))
    {
      PaddedIsRead(s, ds[k]);
    }
    CombinedIff(Parsed(Trimmed(texts)));
    assert ParseAll(Trimmed(texts)).value == Meants(ds);
  }

  lemma BlankIsDeclaration(tail: string)
    requires IsBlank(tail)
    ensures IsDeclaration(tail) && Trim(tail) == ""
  {
    BlankHasNone(tail);
    PlainIsDeclaration(tail);
    TrimOfTidy(tail, "");
    assert tail + "" == tail;
  }

  /** The binding of a written header is rendered from the declarations meant, no more, no less and no others. */
  lemma HeaderIsRead(package: string, s: Style, ds: seq<WrittenDeclaration>, tail: string)
    requires IsStyle(s) && AllWritten(ds) && IsBlank(tail)
    ensures Generated(package, HeaderText(s, ds, tail)) == RenderedIn(package, HeadersOf(Meants(ds)))
  {
    BlankIsDeclaration(tail);
    StatementsAreRead(s, ds);
    WrittenIsRead(DeclarationTexts(s, ds), tail);
  }

  // ----- From the header file on -----

  lemma {:induction false} FieldsLack(s: Style, fields: seq<WrittenName>, c: char)
    requires IsStyle(s) && AllNamed(fields) && IsForeign(s, c) && c != ';'
    ensures c !in FieldsText(s, fields)
  {
    if fields != [] {
      NamedLacks(s, fields[0], c);
      FieldsLack(s, fields[1..], c);
    }
  }

  lemma DeclarationLacks(s: Style, d: WrittenDeclaration, c: char)
    requires IsStyle(s) && IsWritten(d) && IsForeign(s, c) && c !in "{}; "
    ensures c !in DeclarationText(s, d)
  {
    assert c != '{' && c != '}' && c != ';' && c != ' ' by {
      assert "{}; "[0] == '{' && "{}; "[1] == '}' && "{}; "[2] == ';' && "{}; "[3] == ' ';
    }
    match d
    case OpaqueTypedef(name) => WordLacks(name, c);
    case StructTypedef(name, fields) =>
      WordLacks(name, c);
      FieldsLack(s, fields, c);
    case Prototype(n, params) => PrototypeLacks(s, n, params, c);
  }

  lemma HeaderLacks(s: Style, ds: seq<WrittenDeclaration>, tail: string, c: char)
    requires IsStyle(s) && AllWritten(ds) && IsForeign(s, c) && c !in "{}; " && c !in tail
    ensures c !in HeaderText(s, ds, tail)
  {
    forall k | 0 <= k < |ds|
      ensures c !in DeclarationTexts(s, ds)[k]
    {
      DeclarationLacks(s, ds[k], c);
    }
    assert "{}; "[2] == ';';
    JoinLacks(DeclarationTexts(s, ds) + [tail], [';'], c);
  }

  lemma {:induction false} TailIsLast(pieces: seq<string>, tail: string)
    ensures Written(pieces, tail) == Written(pieces, "") + tail
    ensures Written(pieces, "") == "" || Written(pieces, "")[|Written(pieces, "")| - 1] == ';'
  {
    if pieces == [] {
      assert pieces + [tail] == [tail] && pieces + [""] == [""];
    } else {
      assert (pieces + [tail])[1..] == pieces[1..] + [tail] && (pieces + [""])[1..] == pieces[1..] + [""];
      TailIsLast(pieces[1..], tail);
    }
  }

  lemma BreakDropsFromTail(before: string, tail: string)
    requires before == "" || before[|before| - 1] != '\n'
    ensures LastBreakDropped(before + tail) == before + LastBreakDropped(tail)
  {
    if tail == "" {
      assert before + tail == before;
    }
  }

  lemma HeaderWithoutBreak(s: Style, ds: seq<WrittenDeclaration>, tail: string)
    ensures LastBreakDropped(HeaderText(s, ds, tail)) == HeaderText(s, ds, LastBreakDropped(tail))
  {
    var pieces := DeclarationTexts(s, ds);
    TailIsLast(pieces, tail);
    TailIsLast(pieces, LastBreakDropped(tail));
    BreakDropsFromTail(Written(pieces, ""), tail);
  }

  /** As for the header file itself, as long as its white space has no carriage return. */
  lemma WrittenHeaderIsBound(package: string, s: Style, ds: seq<WrittenDeclaration>, tail: string)
    requires IsStyle(s) && AllWritten(ds) && IsBlank(tail) && IsPackagePath(package)
    requires '\r' !in s.gap && '\r' !in s.pad && '\r' !in tail
    ensures GeneratedFrom(package, HeaderText(s, ds, tail)) == RenderedIn(package, HeadersOf(Meants(ds)))
  {
    HeaderLacks(s, ds, tail, '/');
    HeaderLacks(s, ds, tail, '#');
    HeaderLacks(s, ds, tail, '\r');
    QuietIsKept(HeaderText(s, ds, tail));
    HeaderWithoutBreak(s, ds, tail);
    HeaderIsRead(package, s, ds, LastBreakDropped(tail));
  }
}
