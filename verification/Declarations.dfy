/** The C declarations the header reader understands. */
module Declarations {
  import opened Wrappers
  import opened Texts
  import opened HeaderScanner

  datatype CType = CType(base: string, pointer: bool, isConst: bool, callback: Option<CCallback>)

  datatype CCallback = CCallback(returnType: CType, params: seq<CType>)

  datatype CDeclaration = CDeclaration(name: string, valueType: CType)

  datatype CStruct = CStruct(name: string, fields: seq<CDeclaration>)

  datatype CFunction = CFunction(name: string, returnType: CType, params: seq<CDeclaration>)

  datatype HeaderError =
    | BadPackage(package: string)
    | OpenComment
    | Unsplittable(reason: ScanError)
    | UnsupportedTypedef(source: string)
    | EmptyStruct(name: string)
    | Variadic(source: string)
    | NotAFunction(source: string)
    | UnmatchedParen(source: string)
    | TrailingTokens(source: string)
    | BadCallback(source: string)
    | ArrayOrBitfield(source: string)
    | BadName(source: string)
    | MultiplePointers(source: string)
    | UnsupportedSpelling(source: string)
    | CallbackField
    | PointerField(name: string)
    | UnsupportedPointer(name: string)
    | OpaqueCallbackReturn(name: string)
    | UnsupportedScalar(name: string)

  // ----- Tokens -----

  predicate IsWordChar(c: char) {
    c == '_' || 'a' <= c <= 'z' || 'A' <= c <= 'Z' || '0' <= c <= '9'
  }

  predicate IsWord(s: string) {
    s != "" && forall i :: 0 <= i < |s| ==> IsWordChar(s[i])
  }

  predicate IsIdentifier(s: string) {
    IsWord(s) && !('0' <= s[0] <= '9')
  }

  function Flushed(current: string): seq<string> {
    if current == "" then [] else [current]
  }

  /** The tokens of `s` when a word `current` has been begun. */
  function TokensFrom(s: string, current: string): seq<string> {
    if s == "" then Flushed(current)
    else if IsWordChar(s[0]) then TokensFrom(s[1..], current + [s[0]])
    else Flushed(current) + (if s[0] == '*' then ["*"] else []) + TokensFrom(s[1..], "")
  }

  function Tokens(s: string): seq<string> {
    TokensFrom(s, "")
  }

  ghost predicate AllTokens(tokens: seq<string>) {
    forall i :: 0 <= i < |tokens| ==> IsWord(tokens[i]) || tokens[i] == "*"
  }

  /** A token is a word or a star. */
  lemma {:induction false} TokensAreWords(s: string, current: string)
    requires current == "" || IsWord(current)
    ensures AllTokens(TokensFrom(s, current))
  {
    if s != "" {
      if IsWordChar(s[0]) {
        TokensAreWords(s[1..], current + [s[0]]);
      } else {
        TokensAreWords(s[1..], "");
      }
    }
  }

  /** The tokens once `tokens` have been read and a word `current` has been begun. */
  function TokensOnto(tokens: seq<string>, s: string, current: string): seq<string>
    decreases s
  {
    var flushed := if current == "" then tokens else tokens + [current];
    if s == "" then flushed
    else if IsWordChar(s[0]) then TokensOnto(tokens, s[1..], current + [s[0]])
    else TokensOnto(if s[0] == '*' then flushed + ["*"] else flushed, s[1..], "")
  }

  lemma Regrouped(a: seq<string>, b: seq<string>, c: seq<string>, d: seq<string>)
    ensures a + b + c + d == a + (b + c + d)
  {
  }

  lemma {:induction false} OntoIsFrom(tokens: seq<string>, s: string, current: string)
    ensures TokensOnto(tokens, s, current) == tokens + TokensFrom(s, current)
    decreases s
  {
    var flushed := if current == "" then tokens else tokens + [current];
    assert flushed == tokens + Flushed(current);
    if s != "" {
      if IsWordChar(s[0]) {
        OntoIsFrom(tokens, s[1..], current + [s[0]]);
      } else {
        var star := if s[0] == '*' then ["*"] else [];
        assert flushed + star == if s[0] == '*' then flushed + ["*"] else flushed;
        OntoIsFrom(flushed + star, s[1..], "");
        Regrouped(tokens, Flushed(current), star, TokensFrom(s[1..], ""));
      }
    }
  }

  /** `declaration_tokens`. */
  method DeclarationTokens(source: string) returns (tokens: seq<string>)
    ensures tokens == Tokens(source)
  {
    OntoIsFrom([], source, "");
    tokens := ReadTokens(source);
  }

  method ReadTokens(source: string) returns (tokens: seq<string>)
    ensures tokens == TokensOnto([], source, "")
  {
    tokens := [];
    var current := "";
    var index := 0;
    assert source[0..] == source;
    while index < |source|
      invariant 0 <= index <= |source|
      invariant TokensOnto(tokens, source[index..], current) == TokensOnto([], source, "")
    {
      var ch := source[index];
      assert source[index..][1..] == source[index + 1..];
      if IsWordChar(ch) {
        current := current + [ch];
      } else {
        if current != "" {
          tokens := tokens + [current];
          current := "";
        }
        if ch == '*' {
          tokens := tokens + ["*"];
        }
      }
      index := index + 1;
    }
    if current != "" {
      tokens := tokens + [current];
    }
  }

  // ----- Types and declarations -----

  function Stars(tokens: seq<string>): nat {
    if tokens == [] then 0 else (if tokens[0] == "*" then 1 else 0) + Stars(tokens[1..])
  }

  function BaseTokens(tokens: seq<string>): (r: seq<string>)
    ensures forall t :: t in r ==> t in tokens && t != "*" && t != "const"
  {
    if tokens == [] then []
    else if tokens[0] == "*" || tokens[0] == "const" then BaseTokens(tokens[1..])
    else [tokens[0]] + BaseTokens(tokens[1..])
  }

  function ParseTypeTokens(tokens: seq<string>, source: string): Result<CType, HeaderError> {
    if Stars(tokens) > 1 then Err(MultiplePointers(source))
    else
      var base := BaseTokens(tokens);
      if |base| != 1 then Err(UnsupportedSpelling(source))
      else Ok(CType(base[0], Stars(tokens) == 1, "const" in tokens, None))
  }

  function ParseAbstractType(source: string): Result<CType, HeaderError> {
    ParseTypeTokens(Tokens(source), source)
  }

  function ParseRegularDeclaration(source: string): Result<CDeclaration, HeaderError> {
    var tokens := Tokens(source);
    if '[' in source || ']' in source || ':' in source then Err(ArrayOrBitfield(source))
    else if tokens == [] || !IsIdentifier(tokens[|tokens| - 1]) then Err(BadName(source))
    else
      var valueType :- ParseTypeTokens(tokens[..|tokens| - 1], source);
      Ok(CDeclaration(tokens[|tokens| - 1], valueType))
  }

  function ParseRegularDeclarations(sources: seq<string>): Result<seq<CDeclaration>, HeaderError> {
    if sources == [] then Ok([])
    else
      var first :- ParseRegularDeclaration(sources[0]);
      var rest :- ParseRegularDeclarations(sources[1..]);
      Ok([first] + rest)
  }

  function ParseAbstractTypes(sources: seq<string>): Result<seq<CType>, HeaderError> {
    if sources == [] then Ok([])
    else
      var first :- ParseAbstractType(sources[0]);
      var rest :- ParseAbstractTypes(sources[1..]);
      Ok([first] + rest)
  }

  predicate IsEmptyList(source: string) {
    Trim(source) == "void" || Trim(source) == ""
  }

  /** The text between a parenthesis and its match can be split without the depth falling below zero. */
  lemma InteriorSplits(s: string, open: nat)
    requires open < |s| && s[open] == '('
    ensures MatchingParen(s, open).Some? ==> NeverNegative(PARENS, s[open + 1..MatchingParen(s, open).value])
  {
    MatchingParenCloses(s, open);
    var close := MatchingParen(s, open);
    if close.Some? {
      assert Closes(s, open, close.value);
      InteriorIsBalanced(s, open, close.value);
    }
  }

  function CallbackOf(name: string, returning: string, inside: string): Result<CDeclaration, HeaderError>
    requires NeverNegative(PARENS, inside)
  {
    var returnType :- ParseAbstractType(returning);
    var params :- if IsEmptyList(inside) then Ok([]) else ParseAbstractTypes(TopLevel(inside, ','));
    Ok(CDeclaration(name, CType("callback", false, false, Some(CCallback(returnType, params)))))
  }

  /** A callback whose parameters open at `open`. */
  function CallbackAt(source: string, marker: nat, name: string, open: nat): Result<CDeclaration, HeaderError>
    requires marker <= |source| && open < |source| && source[open] == '('
  {
    InteriorSplits(source, open);
    match MatchingParen(source, open)
    case None => Err(UnmatchedParen(source))
    case Some(close) =>
      if Trim(source[close + 1..]) != "" then Err(TrailingTokens(source))
      else CallbackOf(name, Trim(source[..marker]), source[open + 1..close])
  }

  /** A callback whose name ends at `nameEnd`. */
  function CallbackAfter(source: string, marker: nat, name: string, nameEnd: nat): Result<CDeclaration, HeaderError>
    requires marker <= nameEnd < |source|
  {
    if !IsIdentifier(name) then Err(BadCallback(source))
    else
      match FindFirst(source, '(', nameEnd + 1)
      case None => Err(BadCallback(source))
      case Some(open) => CallbackAt(source, marker, name, open)
  }

  /** A callback whose name follows the marker at `marker`. */
  function CallbackNamed(source: string, marker: nat): Result<CDeclaration, HeaderError>
    requires marker + 2 <= |source|
  {
    match FindFirst(source, ')', marker + 2)
    case None => Err(BadCallback(source))
    case Some(nameEnd) => CallbackAfter(source, marker, Trim(source[marker + 2..nameEnd]), nameEnd)
  }

  function ParseCallback(source: string): Result<CDeclaration, HeaderError> {
    match Find(source, "(*", 0)
    case None => Err(BadCallback(source))
    case Some(marker) => CallbackNamed(source, marker)
  }

  function ParseParameter(source: string): Result<CDeclaration, HeaderError> {
    if Find(source, "(*", 0).Some? then ParseCallback(source) else ParseRegularDeclaration(source)
  }

  function ParseParameters(sources: seq<string>): Result<seq<CDeclaration>, HeaderError> {
    if sources == [] then Ok([])
    else
      var first :- ParseParameter(sources[0]);
      var rest :- ParseParameters(sources[1..]);
      Ok([first] + rest)
  }

  /** The parameters between the parentheses of a prototype. */
  function ParamsIn(inside: string): Result<seq<CDeclaration>, HeaderError>
    requires NeverNegative(PARENS, inside)
  {
    if IsEmptyList(inside) then Ok([]) else ParseParameters(TopLevel(inside, ','))
  }

  /** A function whose parameters open at `open`. */
  function FunctionAt(statement: string, open: nat): Result<CFunction, HeaderError>
    requires open < |statement| && statement[open] == '('
  {
    InteriorSplits(statement, open);
    match MatchingParen(statement, open)
    case None => Err(UnmatchedParen(statement))
    case Some(close) =>
      if Trim(statement[close + 1..]) != "" then Err(TrailingTokens(statement))
      else
        var declaration :- ParseRegularDeclaration(Trim(statement[..open]));
        var params :- ParamsIn(statement[open + 1..close]);
        Ok(CFunction(declaration.name, declaration.valueType, params))
  }

  function ParseFunction(statement: string): Result<CFunction, HeaderError> {
    if Find(statement, "...", 0).Some? then Err(Variadic(statement))
    else
      match FindFirst(statement, '(', 0)
      case None => Err(NotAFunction(statement))
      case Some(open) => FunctionAt(statement, open)
  }

  function ParseOpaqueTypedef(statement: string): Result<string, HeaderError> {
    var tokens := Tokens(statement);
    if |tokens| == 4 && tokens[0] == "typedef" && tokens[1] == "struct" && tokens[2] == tokens[3] then Ok(tokens[3])
    else Err(UnsupportedTypedef(statement))
  }

  /** In a balanced statement the first opening brace comes before the last closing one. */
  lemma OpenBeforeClose(s: string, open: nat)
    requires Balanced(BRACES, s) && open < |s| && s[open] == '{'
    ensures FindLast(s, '}').Some? && FindLast(s, '}').value > open
  {
    DepthNext(BRACES, s, open);
    assert Depth(BRACES, s[..open]) >= 0;
    assert s[..|s|] == s;
    if forall i :: open < i < |s| ==> s[i] != '}' {
      OnlyRises(BRACES, s, open + 1, |s|);
    }
  }

  lemma {:induction false} OnlyRises(b: Brackets, s: string, from: nat, end: nat)
    requires from <= end <= |s| && forall i :: from <= i < end ==> s[i] != b.close
    ensures Depth(b, s[..end]) >= Depth(b, s[..from])
    decreases end
  {
    if from < end {
      OnlyRises(b, s, from, end - 1);
      DepthNext(b, s, end - 1);
    }
  }

  function FieldSources(inside: string): seq<string> {
    NonEmpty(Trimmed(Split(inside, ';')))
  }

  /** `str::split`. */
  function Split(s: string, delimiter: char): (r: seq<string>)
    ensures r != []
  {
    if s == "" then [""]
    else if s[0] == delimiter then [""] + Split(s[1..], delimiter)
    else Prepend([s[0]], Split(s[1..], delimiter))
  }

  function NonEmpty(texts: seq<string>): seq<string> {
    if texts == [] then []
    else if texts[0] == "" then NonEmpty(texts[1..])
    else [texts[0]] + NonEmpty(texts[1..])
  }

  /** Slicing between the braces is safe because the statement is balanced. */
  function ParseStructTypedef(statement: string): Result<CStruct, HeaderError>
    requires Balanced(BRACES, statement) && '{' in statement
  {
    FindFirstIsFirst(statement, '{', 0);
    var open := FindFirst(statement, '{', 0).value;
    OpenBeforeClose(statement, open);
    var close := FindLast(statement, '}').value;
    var prefix, suffix := Tokens(statement[..open]), Tokens(statement[close + 1..]);
    if |prefix| != 3 || |suffix| != 1 || prefix[0] != "typedef" || prefix[1] != "struct" || prefix[2] != suffix[0]
    then Err(UnsupportedTypedef(statement))
    else
      var fields :- ParseRegularDeclarations(FieldSources(statement[open + 1..close]));
      if fields == [] then Err(EmptyStruct(suffix[0])) else Ok(CStruct(suffix[0], fields))
  }

  // ----- One statement -----

  datatype Declared = Blank | Opaque(name: string) | Struct(cstruct: CStruct) | Function(cfunction: CFunction)

  const TYPEDEF := "typedef struct "

  function ParseStatement(statement: string): Result<Declared, HeaderError>
    requires Balanced(BRACES, statement)
  {
    if statement == "" then Ok(Blank)
    else if TYPEDEF <= statement then
      if '{' in statement then
        var item :- ParseStructTypedef(statement);
        Ok(Struct(item))
      else
        var name :- ParseOpaqueTypedef(statement);
        Ok(Opaque(name))
    else
      var function' :- ParseFunction(statement);
      Ok(Function(function'))
  }
}
