/** What the header reader takes, and what it refuses. */
module RefusedDeclarations {
  import opened Wrappers
  import opened Texts
  import opened HeaderScanner
  import opened Declarations
  import opened WrittenStatements

  // ----- Types -----

  lemma {:induction false} StarsAreCounted(tokens: seq<string>)
    ensures Stars(tokens) == multiset(tokens)["*"]
  {
    if tokens != [] {
      StarsAreCounted(tokens[1..]);
      assert tokens == [tokens[0]] + tokens[1..];
    }
  }

  lemma {:induction false} BaseTokensAreCounted(tokens: seq<string>, word: string)
    ensures multiset(BaseTokens(tokens))[word]
      == if word == "*" || word == "const" then 0 else multiset(tokens)[word]
  {
    if tokens != [] {
      BaseTokensAreCounted(tokens[1..], word);
      assert tokens == [tokens[0]] + tokens[1..];
    }
  }

  /** One word, any number of `const`, and a star for a pointer, in whatever order. */
  ghost predicate SpellsType(tokens: seq<string>, t: CType) {
    && t.callback == None
    && t.base != "*" && t.base != "const" && multiset(tokens)[t.base] == 1
    && (forall word :: word in tokens ==> word == t.base || word == "*" || word == "const")
    && multiset(tokens)["*"] == (if t.pointer then 1 else 0)
    && (t.isConst <==> "const" in tokens)
  }

  lemma OneBaseIff(tokens: seq<string>, base: string)
    ensures BaseTokens(tokens) == [base] <==>
      && base != "*" && base != "const" && multiset(tokens)[base] == 1
      && forall word :: word in tokens ==> word == base || word == "*" || word == "const"
  {
    var bases := BaseTokens(tokens);
    forall word
      ensures multiset(bases)[word] == if word == "*" || word == "const" then 0 else multiset(tokens)[word]
      ensures word in tokens <==> multiset(tokens)[word] > 0
    {
      BaseTokensAreCounted(tokens, word);
    }
    if bases == [base] {
      assert base in bases;
      assert multiset(bases) == multiset{base};
    } else if base != "*" && base != "const" && multiset(tokens)[base] == 1
      && forall word :: word in tokens ==> word == base || word == "*" || word == "const" {
      OnlyOne(bases, base);
    }
  }

  lemma OnlyOne(words: seq<string>, word: string)
    requires multiset(words)[word] == 1 && forall other :: other != word ==> multiset(words)[other] == 0
    ensures words == [word]
  {
    assert multiset(words) == multiset{word};
    assert |words| == |multiset(words)| == 1;
    assert words[0] in multiset(words);
  }

  /** A type is read from exactly the tokens that spell it. */
  lemma TypeIff(tokens: seq<string>, source: string, t: CType)
    ensures ParseTypeTokens(tokens, source) == Ok(t) <==> SpellsType(tokens, t)
  {
    StarsAreCounted(tokens);
    OneBaseIff(tokens, t.base);
    var bases := BaseTokens(tokens);
    assert |bases| == 1 ==> bases == [bases[0]];
  }

  // ----- Declarations -----

  /** Arrays and bit fields are refused, and so is a declaration whose last token is no name. */
  lemma DeclarationIff(source: string, d: CDeclaration)
    ensures ParseRegularDeclaration(source) == Ok(d) <==>
      && '[' !in source && ']' !in source && ':' !in source
      && IsIdentifier(d.name)
      && exists before :: Tokens(source) == before + [d.name] && SpellsType(before, d.valueType)
  {
    var tokens := Tokens(source);
    if tokens != [] {
      var before, last := tokens[..|tokens| - 1], tokens[|tokens| - 1];
      assert tokens == before + [last];
      TypeIff(before, source, d.valueType);
      if front :| tokens == front + [d.name] && SpellsType(front, d.valueType) {
        assert front == before && d.name == last;
      }
    }
  }

  /** A statement with three dots is refused as variadic. */
  lemma VariadicIsRefused(statement: string)
    requires Contains(statement, "...")
    ensures ParseFunction(statement) == Err(Variadic(statement))
  {
    FindIsFirst(statement, "...", 0);
  }

  /** What the reader makes of a statement whose first parenthesis is closed: nothing but white space may follow,
      what stands before is the name with its type, and what stands between is the list. */
  function FunctionFrom(statement: string, head: string, list: string, after: string): Result<CFunction, HeaderError>
    requires NeverNegative(PARENS, list)
  {
    if Trim(after) != "" then Err(TrailingTokens(statement))
    else
      var declaration :- ParseRegularDeclaration(Trim(head));
      var params :- ParamsIn(list);
      Ok(CFunction(declaration.name, declaration.valueType, params))
  }

  lemma FunctionByParts(head: string, list: string, after: string)
    requires '(' !in head && Balanced(PARENS, list)
    requires Find(head + "(" + list + ")" + after, "...", 0) == None
    ensures var statement := head + "(" + list + ")" + after;
      ParseFunction(statement) == FunctionFrom(statement, head, list, after)
  {
    var s, open, close := head + "(" + list + ")" + after, |head|, |head| + 1 + |list|;
    assert s == head + ['('] + (list + ")" + after);
    FindsFirstAt(head, '(', list + ")" + after, 0);
    ClosesAfter(head, list, after);
    PartsOf(head, list, after);
    FunctionAtPlaces(s, open, close, head, list, after);
  }

  lemma PartsOf(head: string, list: string, after: string)
    ensures var s, close := head + "(" + list + ")" + after, |head| + 1 + |list|;
      s[..|head|] == head && s[|head| + 1..close] == list && s[close + 1..] == after
  {
  }

  lemma FunctionAtPlaces(s: string, open: nat, close: nat, head: string, list: string, after: string)
    requires open < |s| && s[open] == '(' && MatchingParen(s, open) == Some(close)
    requires s[..open] == head && s[open + 1..close] == list && s[close + 1..] == after
    requires NeverNegative(PARENS, list)
    ensures FunctionAt(s, open) == FunctionFrom(s, head, list, after)
  {
  }

  /** A statement without a parenthesis is no function. */
  lemma NoListIsRefused(statement: string)
    requires '(' !in statement && Find(statement, "...", 0) == None
    ensures ParseFunction(statement) == Err(NotAFunction(statement))
  {
  }

  /** And one whose first parenthesis is never closed has no list. */
  lemma OpenListIsRefused(head: string, rest: string)
    requires '(' !in head && NeverNegative(PARENS, rest) && Find(head + "(" + rest, "...", 0) == None
    ensures ParseFunction(head + "(" + rest) == Err(UnmatchedParen(head + "(" + rest))
  {
    var s, open := head + "(" + rest, |head|;
    FindsFirstAt(head, '(', rest, 0);
    assert s == head + ['('] + rest;
    forall close: nat
      ensures !Closes(s, open, close)
    {
      if open < close < |s| {
        assert s[open..close + 1] == ['('] + rest[..close - open];
        DepthFirst(PARENS, '(', rest[..close - open]);
        assert Depth(PARENS, rest[..close - open]) >= 0;
      }
    }
    MatchingParenCloses(s, open);
    assert MatchingParen(s, open) == None;
  }

  // ----- Callbacks -----

  /** The name stands between the marker and the first parenthesis that closes, the list between the next one that
      opens and its match, and nothing but white space follows. */
  ghost predicate IsWholeCallback(source: string, marker: nat, nameEnd: nat, open: nat, close: nat) {
    && marker + 2 <= nameEnd < open < close < |source|
    && "(*" <= source[marker..]
    && source[nameEnd] == ')' && (forall i :: marker + 2 <= i < nameEnd ==> source[i] != ')')
    && (forall i :: nameEnd < i < open ==> source[i] != '(')
    && Closes(source, open, close)
    && Trim(source[close + 1..]) == ""
  }

  lemma ListIsClosed(source: string, marker: nat, name: string, open: nat) returns (close: nat)
    requires marker <= |source| && open < |source| && source[open] == '('
    requires CallbackAt(source, marker, name, open).Ok?
    ensures Closes(source, open, close) && Trim(source[close + 1..]) == ""
    ensures NeverNegative(PARENS, source[open + 1..close])
    ensures CallbackAt(source, marker, name, open) == CallbackOf(name, Trim(source[..marker]), source[open + 1..close])
  {
    InteriorSplits(source, open);
    MatchingParenCloses(source, open);
    close := MatchingParen(source, open).value;
    assert Closes(source, open, close);
  }

  lemma NameIsFound(source: string, marker: nat) returns (nameEnd: nat, open: nat, name: string)
    requires marker + 2 <= |source| && CallbackNamed(source, marker).Ok?
    ensures marker + 2 <= nameEnd < open < |source|
    ensures source[nameEnd] == ')' && forall i :: marker + 2 <= i < nameEnd ==> source[i] != ')'
    ensures source[open] == '(' && forall i :: nameEnd < i < open ==> source[i] != '('
    ensures name == Trim(source[marker + 2..nameEnd]) && IsIdentifier(name)
    ensures CallbackNamed(source, marker) == CallbackAt(source, marker, name, open)
  {
    FindFirstIsFirst(source, ')', marker + 2);
    nameEnd := FindFirst(source, ')', marker + 2).value;
    name := Trim(source[marker + 2..nameEnd]);
    FindFirstIsFirst(source, '(', nameEnd + 1);
    open := FindFirst(source, '(', nameEnd + 1).value;
  }

  /** A callback is taken only as a whole, and is read from its name, its type and its list. */
  lemma CallbackIsWhole(source: string) returns (marker: nat, nameEnd: nat, open: nat, close: nat)
    requires Find(source, "(*", 0).Some? && ParseParameter(source).Ok?
    ensures IsWholeCallback(source, marker, nameEnd, open, close)
    ensures IsIdentifier(Trim(source[marker + 2..nameEnd])) && NeverNegative(PARENS, source[open + 1..close])
    ensures ParseParameter(source)
      == CallbackOf(Trim(source[marker + 2..nameEnd]), Trim(source[..marker]), source[open + 1..close])
  {
    marker := Find(source, "(*", 0).value;
    var name;
    nameEnd, open, name := NameIsFound(source, marker);
    close := ListIsClosed(source, marker, name, open);
  }

  // ----- Typedefs -----

  /** An opaque typedef is read exactly if it names its tag again. */
  lemma OpaqueIff(statement: string, name: string)
    ensures ParseOpaqueTypedef(statement) == Ok(name) <==> Tokens(statement) == ["typedef", "struct", name, name]
  {
    var tokens := Tokens(statement);
    if |tokens| == 4 {
      assert tokens == [tokens[0], tokens[1], tokens[2], tokens[3]];
    }
  }

  /** What a struct typedef reads as, given its tokens before and behind the braces and its fields. */
  ghost function StructFrom(
    statement: string, prefix: seq<string>, suffix: seq<string>, fields: Result<seq<CDeclaration>, HeaderError>)
    : Result<CStruct, HeaderError>
  {
    if |prefix| != 3 || |suffix| != 1 || prefix[0] != "typedef" || prefix[1] != "struct" || prefix[2] != suffix[0]
    then Err(UnsupportedTypedef(statement))
    else
      var found :- fields;
      if found == [] then Err(EmptyStruct(suffix[0])) else Ok(CStruct(suffix[0], found))
  }

  lemma StructFromIff(
    statement: string, prefix: seq<string>, suffix: seq<string>, fields: Result<seq<CDeclaration>, HeaderError>,
    item: CStruct)
    ensures StructFrom(statement, prefix, suffix, fields) == Ok(item) <==>
      && prefix == ["typedef", "struct", item.name] && suffix == [item.name]
      && item.fields != [] && fields == Ok(item.fields)
  {
  }

  lemma StructIsFrom(statement: string, open: nat, close: nat)
    requires Balanced(BRACES, statement) && '{' in statement
    requires FindFirst(statement, '{', 0) == Some(open) && FindLast(statement, '}') == Some(close) && open < close
    ensures ParseStructTypedef(statement) == StructFrom(statement, Tokens(statement[..open]),
      Tokens(statement[close + 1..]), ParseRegularDeclarations(FieldSources(statement[open + 1..close])))
  {
  }

  /** A struct typedef is read only if its tag and its alias are one name, and then from the fields between its
      braces, of which there is one. */
  lemma StructIff(statement: string, item: CStruct, open: nat, close: nat)
    requires Balanced(BRACES, statement) && '{' in statement
    requires FindFirst(statement, '{', 0) == Some(open) && FindLast(statement, '}') == Some(close) && open < close
    ensures ParseStructTypedef(statement) == Ok(item) <==>
      && Tokens(statement[..open]) == ["typedef", "struct", item.name]
      && Tokens(statement[close + 1..]) == [item.name]
      && item.fields != []
      && ParseRegularDeclarations(FieldSources(statement[open + 1..close])) == Ok(item.fields)
  {
    StructIsFrom(statement, open, close);
    StructFromIff(statement, Tokens(statement[..open]), Tokens(statement[close + 1..]),
      ParseRegularDeclarations(FieldSources(statement[open + 1..close])), item);
  }
}
