/** Reading a written statement: lists split at their commas, callbacks and prototypes at their parentheses, structs
    at their braces and semicolons. */
module WrittenStatements {
  import opened Wrappers
  import opened Texts
  import opened HeaderScanner
  import opened Declarations
  import opened WrittenDeclarations

  // ----- Searching -----

  lemma FoundAtItsFirst(s: string, part: string, from: nat)
    requires from <= |s| && part != ""
    ensures var r := Find(s, part, from); r.Some? ==> r.value < |s| && s[r.value] == part[0]
  {
    var r := Find(s, part, from);
    if r.Some? {
      assert s[r.value..][0] == part[0];
    }
  }

  lemma FindsNothing(s: string, part: string)
    requires part != "" && part[0] !in s
    ensures Find(s, part, 0) == None
  {
    FoundAtItsFirst(s, part, 0);
  }

  lemma FindsFirstAt(before: string, c: char, after: string, from: nat)
    requires from <= |before| && forall i :: from <= i < |before| ==> before[i] != c
    ensures FindFirst(before + [c] + after, c, from) == Some(|before|)
  {
    var s := before + [c] + after;
    FindFirstIsFirst(s, c, from);
    assert s[|before|] == c;
    assert forall i :: from <= i < |before| ==> s[i] == before[i];
  }

  lemma FindsLastAt(s: string, c: char, at: nat)
    requires at < |s| && s[at] == c && forall i :: at < i < |s| ==> s[i] != c
    ensures FindLast(s, c) == Some(at)
  {
  }

  lemma Regrouped(a: string, b: string, c: string, d: string)
    ensures a + (b + c + d) == a + b + c + d
  {
  }

  // ----- Balanced texts -----

  lemma {:induction false} NoBrackets(b: Brackets, s: string)
    requires b.open !in s && b.close !in s
    ensures Depth(b, s) == 0
  {
    if s != "" {
      NoBrackets(b, s[..|s| - 1]);
    }
  }

  lemma PlainIsBalanced(b: Brackets, s: string)
    requires b.open !in s && b.close !in s
    ensures Balanced(b, s)
  {
    NoBrackets(b, s);
    forall i | 0 <= i <= |s|
      ensures Depth(b, s[..i]) >= 0
    {
      NoBrackets(b, s[..i]);
    }
  }

  lemma BalancedTogether(b: Brackets, x: string, y: string)
    requires Balanced(b, x) && Balanced(b, y)
    ensures Balanced(b, x + y)
  {
    var s := x + y;
    DepthConcat(b, x, y);
    forall i | 0 <= i <= |s|
      ensures Depth(b, s[..i]) >= 0
    {
      if i <= |x| {
        assert s[..i] == x[..i];
      } else {
        assert s[..i] == x + y[..i - |x|];
        DepthConcat(b, x, y[..i - |x|]);
      }
    }
  }

  lemma DepthInside(b: Brackets, inside: string, i: nat)
    requires b.open != b.close && i <= |inside|
    ensures Depth(b, ([b.open] + inside + [b.close])[..i + 1]) == 1 + Depth(b, inside[..i])
  {
    assert ([b.open] + inside + [b.close])[..i + 1] == [b.open] + inside[..i];
    DepthFirst(b, b.open, inside[..i]);
  }

  lemma BalancedInside(b: Brackets, inside: string)
    requires b.open != b.close && Balanced(b, inside)
    ensures Balanced(b, [b.open] + inside + [b.close])
  {
    var s := [b.open] + inside + [b.close];
    forall i | 0 <= i < |s|
      ensures Depth(b, s[..i]) >= 0
    {
      if i > 0 {
        DepthInside(b, inside, i - 1);
      }
    }
    DepthInside(b, inside, |inside|);
    assert inside[..|inside|] == inside && s[..|s|] == s;
    DepthNext(b, s, |s| - 1);
  }

  /** A parenthesis opened before a balanced text is closed right after it. */
  lemma ClosesAfter(before: string, inside: string, after: string)
    requires Balanced(PARENS, inside)
    ensures var s := before + "(" + inside + ")" + after;
      s[|before|] == '(' && MatchingParen(s, |before|) == Some(|before| + 1 + |inside|)
  {
    var s, open, close := before + "(" + inside + ")" + after, |before|, |before| + 1 + |inside|;
    var whole := [PARENS.open] + inside + [PARENS.close];
    assert s[open..close + 1] == whole && s[close] == ')';
    BalancedInside(PARENS, inside);
    forall k | open < k <= close
      ensures Depth(PARENS, s[open..k]) > 0
    {
      assert s[open..k] == whole[..k - open];
      DepthInside(PARENS, inside, k - open - 1);
      assert Depth(PARENS, inside[..k - open - 1]) >= 0;
    }
    assert Closes(s, open, close);
    MatchingParenCloses(s, open);
  }

  // ----- Lists -----

  /** The text neither starts nor ends with white space. */
  predicate IsTidy(s: string) {
    s != "" && !IsSpace(s[0]) && !IsSpace(s[|s| - 1])
  }

  /** Text that is one item of a list. */
  ghost predicate IsItem(text: string) {
    IsTidy(text) && Balanced(PARENS, text) && Unsplit(PARENS, text, 0, ',')
  }

  ghost predicate AllItems(items: seq<string>) {
    forall i :: 0 <= i < |items| ==> IsItem(items[i])
  }

  lemma {:induction false} RawPadded(b: Brackets, pad: string, s: string, depth: int, delimiter: char)
    requires b.open !in pad && b.close !in pad && delimiter !in pad
    ensures Raw(b, pad + s, depth, delimiter) == Prepend(pad, Raw(b, s, depth, delimiter))
    decreases |pad|
  {
    var raw := Raw(b, s, depth, delimiter);
    if pad == "" {
      assert pad + s == s;
      PrependNothing(raw);
    } else {
      assert (pad + s)[1..] == pad[1..] + s && pad == [pad[0]] + pad[1..];
      RawPadded(b, pad[1..], s, depth, delimiter);
      assert [pad[0]] + (pad[1..] + raw[0]) == pad + raw[0];
    }
  }

  lemma {:induction false} TrimStartOfPadded(pad: string, s: string)
    requires IsBlank(pad)
    ensures TrimStart(pad + s) == TrimStart(s)
  {
    if pad == "" {
      assert pad + s == s;
    } else {
      assert (pad + s)[1..] == pad[1..] + s;
      TrimStartOfPadded(pad[1..], s);
    }
  }

  lemma TrimOfTidy(pad: string, s: string)
    requires IsBlank(pad) && (s == "" || IsTidy(s))
    ensures Trim(pad + s) == s
  {
    TrimStartOfPadded(pad, s);
  }

  lemma {:induction false} TrimEndOfPadded(s: string, pad: string)
    requires IsBlank(pad) && (s == "" || !IsSpace(s[|s| - 1]))
    ensures TrimEnd(s + pad) == s
    decreases |pad|
  {
    if pad == "" {
      assert s + pad == s;
    } else {
      assert (s + pad)[..|s + pad| - 1] == s + pad[..|pad| - 1];
      TrimEndOfPadded(s, pad[..|pad| - 1]);
    }
  }

  lemma TidyIsTrimmed(s: string)
    requires IsTidy(s)
    ensures Trim(s) == s
  {
  }

  lemma TrimOfPaddedEnd(s: string, pad: string)
    requires IsTidy(s) && IsBlank(pad)
    ensures Trim(s + pad) == s
  {
    TrimEndOfPadded(s, pad);
  }

  lemma BlankHasNone(s: string)
    requires IsBlank(s)
    ensures '(' !in s && ')' !in s && ',' !in s && ';' !in s && '{' !in s && '}' !in s
  {
  }

  lemma TrimmedPrepend(pad: string, pieces: seq<string>)
    requires pieces != [] && IsBlank(pad)
    ensures Trimmed(Prepend(pad, pieces)) == Trimmed(pieces)
  {
    TrimStartOfPadded(pad, pieces[0]);
  }

  lemma TrimmedCons(piece: string, pieces: seq<string>)
    ensures Trimmed([piece] + pieces) == [Trim(piece)] + Trimmed(pieces)
  {
  }

  lemma {:induction false} ItemsAreSplit(pad: string, items: seq<string>)
    requires IsBlank(pad) && items != [] && AllItems(items)
    ensures Trimmed(Raw(PARENS, Join(items, "," + pad), 0, ',')) == items
  {
    TidyIsTrimmed(items[0]);
    if |items| == 1 {
      RawLast(PARENS, items[0], 0, ',');
    } else {
      var rest := Join(items[1..], "," + pad);
      var raw := Raw(PARENS, rest, 0, ',');
      ItemsAreSplit(pad, items[1..]);
      BlankHasNone(pad);
      assert items[0] + ("," + pad) + rest == items[0] + [','] + (pad + rest);
      RawUnsplit(PARENS, items[0], pad + rest, 0, ',');
      RawPadded(PARENS, pad, rest, 0, ',');
      TrimmedCons(items[0], Prepend(pad, raw));
      TrimmedPrepend(pad, raw);
    }
  }

  lemma {:induction false} ItemsAreBalanced(pad: string, items: seq<string>)
    requires IsBlank(pad) && items != [] && AllItems(items)
    ensures Balanced(PARENS, Join(items, "," + pad)) && IsTidy(Join(items, "," + pad))
  {
    if |items| > 1 {
      var rest := Join(items[1..], "," + pad);
      ItemsAreBalanced(pad, items[1..]);
      BlankHasNone(pad);
      PlainIsBalanced(PARENS, "," + pad);
      BalancedTogether(PARENS, items[0], "," + pad);
      BalancedTogether(PARENS, items[0] + ("," + pad), rest);
    }
  }

  /** A list is split into its items. */
  lemma ListIsSplit(s: Style, items: seq<string>)
    requires IsStyle(s) && AllItems(items)
    ensures Balanced(PARENS, ListText(s, items))
    ensures items != [] ==> TopLevel(ListText(s, items), ',') == items && IsTidy(ListText(s, items))
    ensures items == [] ==> IsEmptyList(ListText(s, items))
  {
    if items == [] {
      PlainIsBalanced(PARENS, s.nothing);
    } else {
      ItemsAreSplit(s.pad, items);
      ItemsAreBalanced(s.pad, items);
    }
  }

  lemma CommaIsWritten(pad: string, items: seq<string>)
    requires |items| > 1
    ensures ',' in Join(items, "," + pad)
  {
    var text := Join(items, "," + pad);
    assert text == items[0] + ("," + pad) + Join(items[1..], "," + pad);
    assert text[|items[0]|] == ',';
  }

  /** Nor is a list mistaken for an empty one, but for that of the one item `void`. */
  lemma ListIsNoEmptyList(s: Style, items: seq<string>)
    requires IsStyle(s) && AllItems(items) && items != [] && items != ["void"]
    ensures !IsEmptyList(ListText(s, items))
  {
    var text := ListText(s, items);
    ListIsSplit(s, items);
    TidyIsTrimmed(text);
    if |items| > 1 {
      CommaIsWritten(s.pad, items);
      assert ',' !in "void";
    } else {
      assert items == [items[0]];
    }
  }

  // ----- Types and names as items -----

  lemma FlatIsItem(text: string)
    requires IsFlat(text) && IsTidy(text)
    ensures IsItem(text) && '(' !in text && ')' !in text
  {
    PlainIsBalanced(PARENS, text);
  }

  lemma TypeIsItem(s: Style, t: WrittenType)
    requires IsStyle(s) && IsTypeWord(t.base)
    ensures IsItem(TypeText(s, t)) && '(' !in TypeText(s, t) && ')' !in TypeText(s, t)
    ensures TypeText(s, t) == "void" <==> t == VOID
  {
    TypeIsFlat(s, t);
    var text := TypeText(s, t);
    assert IsTidy(text) by {
      assert text[0] == if t.isConst then 'c' else t.base[0];
      assert text[|text| - 1] == if t.pointer then '*' else t.base[|t.base| - 1];
    }
    FlatIsItem(text);
    if t.isConst {
      assert text[0] == 'c';
    } else if t.pointer {
      assert text[|text| - 1] == '*';
    }
  }

  lemma NamedIsTidy(s: Style, n: WrittenName)
    requires IsStyle(s) && IsNamed(n)
    ensures IsTidy(NamedText(s, n))
  {
    NamedIsFlat(s, n);
    TypeIsItem(s, n.valueType);
    var text := NamedText(s, n);
    assert text[0] == TypeText(s, n.valueType)[0] && text[|text| - 1] == n.name[|n.name| - 1];
  }

  lemma NamedIsItem(s: Style, n: WrittenName)
    requires IsStyle(s) && IsNamed(n)
    ensures IsItem(NamedText(s, n)) && '(' !in NamedText(s, n) && ')' !in NamedText(s, n)
    ensures NamedText(s, n) != "void"
  {
    NamedIsFlat(s, n);
    NamedIsTidy(s, n);
    FlatIsItem(NamedText(s, n));
    TokensOfNamed(s, n);
    TokensOfLast("void");
  }

  /** A delimiter between brackets splits nothing. */
  lemma EnclosedIsUnsplit(b: Brackets, before: string, inside: string, after: string, delimiter: char)
    requires b.open != b.close && Balanced(b, before) && Balanced(b, inside)
    requires delimiter !in before && delimiter !in after && delimiter != b.open && delimiter != b.close
    ensures Unsplit(b, before + ([b.open] + inside + [b.close]) + after, 0, delimiter)
  {
    var enclosed := [b.open] + inside + [b.close];
    var text := before + enclosed + after;
    forall i | 0 <= i < |text| && text[i] == delimiter
      ensures Depth(b, text[..i]) != 0
    {
      var j := i - |before|;
      assert 1 <= j < |enclosed| - 1;
      assert text[..i] == before + enclosed[..j];
      DepthConcat(b, before, enclosed[..j]);
      DepthInside(b, inside, j - 1);
      assert Depth(b, inside[..j - 1]) >= 0;
    }
  }

  /** What follows the returned type of a callback. */
  lemma CallbackIsItem(head: string, star: string, inside: string)
    requires IsFlat(head) && IsFlat(star) && Balanced(PARENS, inside) && head != "" && !IsSpace(head[0])
    ensures IsItem(head + ("(" + star + ")") + ("(" + inside + ")"))
  {
    var list := [PARENS.open] + inside + [PARENS.close];
    var first := [PARENS.open] + star + [PARENS.close];
    PlainIsBalanced(PARENS, head);
    PlainIsBalanced(PARENS, star);
    BalancedInside(PARENS, star);
    BalancedInside(PARENS, inside);
    BalancedTogether(PARENS, head, first);
    BalancedTogether(PARENS, head + first, list);
    EnclosedIsUnsplit(PARENS, head + first, inside, "", ',');
    assert head + first + list + "" == head + first + list;
  }

  // ----- Callbacks -----

  /** `s` is `head`, the name behind the marker, and the list in its parentheses. */
  ghost predicate IsCallback(s: string, head: string, name: string, list: string) {
    var nameEnd := |head| + 2 + |name|;
    && |s| == nameEnd + 3 + |list|
    && s[..|head|] == head && s[|head|] == '(' && s[|head| + 1] == '*'
    && s[|head| + 2..nameEnd] == name && s[nameEnd] == ')'
    && s[nameEnd + 1] == '(' && s[nameEnd + 2..|s| - 1] == list && s[|s| - 1] == ')'
  }

  /** Where the reader finds the marker. */
  lemma MarkerIsFound(s: string, head: string, name: string, list: string)
    requires IsFlat(head) && IsCallback(s, head, name, list)
    ensures Find(s, "(*", 0) == Some(|head|)
  {
    FindIsFirst(s, "(*", 0);
    FoundAtItsFirst(s, "(*", 0);
    assert forall i :: 0 <= i < |head| ==> s[i] == head[i];
    assert s[|head|..][0] == '(' && s[|head|..][1] == '*';
  }

  /** And the end of the name. */
  lemma NameEndIsFound(s: string, head: string, name: string, list: string)
    requires IsWord(name) && IsCallback(s, head, name, list)
    ensures FindFirst(s, ')', |head| + 2) == Some(|head| + 2 + |name|)
  {
    var from := |head| + 2;
    FindFirstIsFirst(s, ')', from);
    assert forall i :: from <= i < from + |name| ==> s[i] == name[i - from];
  }

  lemma ClosesAtEnd(s: string, open: nat, list: string)
    requires |s| == open + 2 + |list| && s[open] == '(' && s[open + 1..|s| - 1] == list && s[|s| - 1] == ')'
    requires Balanced(PARENS, list)
    ensures MatchingParen(s, open) == Some(|s| - 1)
  {
    assert s == s[..open] + "(" + list + ")" + "";
    ClosesAfter(s[..open], list, "");
  }

  /** And the two ends of the list. */
  lemma CallbackListIsFound(s: string, head: string, name: string, list: string)
    requires Balanced(PARENS, list) && IsCallback(s, head, name, list)
    ensures var open := |head| + 3 + |name|;
      FindFirst(s, '(', open) == Some(open) && MatchingParen(s, open) == Some(|s| - 1)
  {
    ClosesAtEnd(s, |head| + 3 + |name|, list);
  }

  lemma CallbackAtClosed(
    source: string, marker: nat, name: string, open: nat, close: nat, head: string, list: string)
    requires marker <= |source| && open < |source| && source[open] == '('
    requires MatchingParen(source, open) == Some(close) && source[close + 1..] == ""
    requires source[..marker] == head && source[open + 1..close] == list && NeverNegative(PARENS, list)
    ensures CallbackAt(source, marker, name, open) == CallbackOf(name, Trim(head), list)
  {
    assert Trim("") == "";
  }

  lemma CallbackNamedAt(source: string, marker: nat, nameEnd: nat, open: nat, name: string)
    requires marker <= nameEnd < |source| && IsIdentifier(name)
    requires FindFirst(source, '(', nameEnd + 1) == Some(open)
    ensures CallbackAfter(source, marker, name, nameEnd) == CallbackAt(source, marker, name, open)
  {
  }

  lemma CallbackAfterMarker(source: string, marker: nat, nameEnd: nat, name: string)
    requires marker + 2 <= |source| && FindFirst(source, ')', marker + 2) == Some(nameEnd)
    requires source[marker + 2..nameEnd] == name && Trim(name) == name
    ensures CallbackNamed(source, marker) == CallbackAfter(source, marker, name, nameEnd)
  {
  }

  /** Where the marker, the end of the name behind it and the list begin. */
  ghost predicate StartsCallback(source: string, marker: nat, nameEnd: nat, open: nat, name: string) {
    && Find(source, "(*", 0) == Some(marker) && marker + 2 <= |source|
    && FindFirst(source, ')', marker + 2) == Some(nameEnd) && FindFirst(source, '(', nameEnd + 1) == Some(open)
    && source[marker + 2..nameEnd] == name && Trim(name) == name && IsIdentifier(name)
  }

  lemma CallbackStarts(source: string, marker: nat, nameEnd: nat, open: nat, name: string)
    requires StartsCallback(source, marker, nameEnd, open, name)
    ensures ParseParameter(source) == CallbackAt(source, marker, name, open)
  {
    CallbackAfterMarker(source, marker, nameEnd, name);
    CallbackNamedAt(source, marker, nameEnd, open, name);
  }

  lemma CallbackStartIsFound(s: string, head: string, name: string, list: string)
    requires IsCallback(s, head, name, list) && IsFlat(head) && IsIdentifier(name) && Balanced(PARENS, list)
    ensures StartsCallback(s, |head|, |head| + 2 + |name|, |head| + 3 + |name|, name)
  {
    MarkerIsFound(s, head, name, list);
    NameEndIsFound(s, head, name, list);
    CallbackListIsFound(s, head, name, list);
    TidyIsTrimmed(name);
  }

  lemma CallbackOpens(s: string, head: string, name: string, list: string)
    requires IsCallback(s, head, name, list) && IsFlat(head) && IsIdentifier(name) && Balanced(PARENS, list)
    ensures ParseParameter(s) == CallbackAt(s, |head|, name, |head| + 3 + |name|)
  {
    CallbackStartIsFound(s, head, name, list);
    CallbackStarts(s, |head|, |head| + 2 + |name|, |head| + 3 + |name|, name);
  }

  lemma CallbackCloses(s: string, head: string, name: string, list: string)
    requires IsCallback(s, head, name, list) && Balanced(PARENS, list)
    ensures CallbackAt(s, |head|, name, |head| + 3 + |name|) == CallbackOf(name, Trim(head), list)
  {
    CallbackListIsFound(s, head, name, list);
    CallbackAtClosed(s, |head|, name, |head| + 3 + |name|, |s| - 1, head, list);
  }

  /** A callback is taken apart into its name, its type and its list. */
  lemma CallbackIsSplit(s: string, head: string, name: string, list: string)
    requires IsCallback(s, head, name, list) && IsFlat(head) && IsIdentifier(name) && Balanced(PARENS, list)
    ensures ParseParameter(s) == CallbackOf(name, Trim(head), list)
  {
    CallbackOpens(s, head, name, list);
    CallbackCloses(s, head, name, list);
  }

  lemma FirstType(s: Style, types: seq<WrittenType>)
    requires types != []
    ensures TypeTexts(s, types)[0] == TypeText(s, types[0])
    ensures TypeTexts(s, types)[1..] == TypeTexts(s, types[1..])
    ensures [MeantType(types[0])] + MeantEach(types[1..]) == MeantEach(types)
  {
  }

  lemma TypesNext(sources: seq<string>, first: CType, rest: seq<CType>)
    requires sources != []
    requires ParseAbstractType(sources[0]) == Ok(first) && ParseAbstractTypes(sources[1..]) == Ok(rest)
    ensures ParseAbstractTypes(sources) == Ok([first] + rest)
  {
  }

  lemma {:induction false} TypesAreRead(s: Style, types: seq<WrittenType>)
    requires IsStyle(s) && forall t :: t in types ==> IsTypeWord(t.base)
    ensures ParseAbstractTypes(TypeTexts(s, types)) == Ok(MeantEach(types))
  {
    if types != [] {
      TypeIsRead(s, types[0]);
      TypesAreRead(s, types[1..]);
      FirstType(s, types);
      TypesNext(TypeTexts(s, types), MeantType(types[0]), MeantEach(types[1..]));
    }
  }

  lemma TypesAreItems(s: Style, types: seq<WrittenType>)
    requires IsStyle(s) && forall t :: t in types ==> IsTypeWord(t.base)
    ensures AllItems(TypeTexts(s, types))
    ensures TypeTexts(s, types) == ["void"] <==> types == [VOID]
  {
    forall i | 0 <= i < |types|
      ensures IsItem(TypeText(s, types[i])) && (TypeText(s, types[i]) == "void" <==> types[i] == VOID)
    {
      TypeIsItem(s, types[i]);
    }
    if types == [VOID] {
      assert TypeTexts(s, types) == ["void"];
    } else if |types| == 1 {
      assert types[0] != VOID && TypeTexts(s, types)[0] != "void";
    }
  }

  lemma VoidIsEmpty(s: Style)
    ensures ListText(s, ["void"]) == "void" && IsEmptyList("void")
  {
    TidyIsTrimmed("void");
  }

  /** The list of a callback is read type by type; that of `void` alone is empty. */
  lemma CallbackListIsRead(s: Style, n: WrittenName, types: seq<WrittenType>)
    requires IsStyle(s) && IsParam(Callback(n, types))
    ensures Balanced(PARENS, ListText(s, TypeTexts(s, types)))
    ensures CallbackOf(n.name, TypeText(s, n.valueType), ListText(s, TypeTexts(s, types)))
      == Ok(MeantParam(Callback(n, types)))
  {
    var texts := TypeTexts(s, types);
    TypeIsRead(s, n.valueType);
    TypesAreRead(s, types);
    TypesAreItems(s, types);
    ListIsSplit(s, texts);
    if types == [VOID] {
      VoidIsEmpty(s);
    } else if types != [] {
      ListIsNoEmptyList(s, texts);
    } else {
      assert MeantTypes(types) == [];
    }
  }

  // ----- Parameters -----

  lemma HeadIsTrimmed(s: Style, t: WrittenType)
    requires IsStyle(s) && IsTypeWord(t.base)
    ensures IsFlat(TypeText(s, t) + s.gap) && Trim(TypeText(s, t) + s.gap) == TypeText(s, t)
    ensures (TypeText(s, t) + s.gap)[0] == TypeText(s, t)[0] && !IsSpace(TypeText(s, t)[0])
  {
    TypeIsItem(s, t);
    TypeIsFlat(s, t);
    TrimOfPaddedEnd(TypeText(s, t), s.gap);
  }

  /** The text of a callback from the text before its marker on. */
  function CallbackText(head: string, name: string, list: string): string {
    head + "(*" + (name + ")" + ("(" + list + ")"))
  }

  lemma CallbackHasParts(head: string, name: string, list: string)
    ensures IsCallback(CallbackText(head, name, list), head, name, list)
  {
  }

  lemma CallbackIsSpelled(s: Style, n: WrittenName, types: seq<WrittenType>)
    ensures var head, list := TypeText(s, n.valueType) + s.gap, ListText(s, TypeTexts(s, types));
      SpelledParam(s, Callback(n, types)) == CallbackText(head, n.name, list)
      && IsCallback(SpelledParam(s, Callback(n, types)), head, n.name, list)
  {
    CallbackHasParts(TypeText(s, n.valueType) + s.gap, n.name, ListText(s, TypeTexts(s, types)));
  }

  /** Whatever parameter is written is read back. */
  lemma ParameterIsRead(s: Style, p: WrittenParam)
    requires IsStyle(s) && IsParam(p)
    ensures ParseParameter(SpelledParam(s, p)) == Ok(MeantParam(p))
  {
    match p
    case Plain(n) =>
      NamedIsItem(s, n);
      FindsNothing(NamedText(s, n), "(*");
      NamedIsRead(s, n);
    case Callback(n, types) =>
      CallbackIsSpelled(s, n, types);
      HeadIsTrimmed(s, n.valueType);
      CallbackListIsRead(s, n, types);
      CallbackIsSplit(
        SpelledParam(s, p), TypeText(s, n.valueType) + s.gap, n.name, ListText(s, TypeTexts(s, types)));
  }

  lemma CallbackInTwo(head: string, name: string, list: string)
    ensures CallbackText(head, name, list) == head + ("(" + ("*" + name) + ")") + ("(" + list + ")")
  {
    assert "(*" + name == "(" + ("*" + name);
    Regrouped(head, "(*", name + ")", "(" + list + ")");
  }

  lemma ParameterIsItem(s: Style, p: WrittenParam)
    requires IsStyle(s) && IsParam(p)
    ensures IsItem(SpelledParam(s, p)) && SpelledParam(s, p) != "void"
  {
    match p
    case Plain(n) => NamedIsItem(s, n);
    case Callback(n, types) =>
      var list := ListText(s, TypeTexts(s, types));
      HeadIsTrimmed(s, n.valueType);
      CallbackListIsRead(s, n, types);
      CallbackIsItem(TypeText(s, n.valueType) + s.gap, "*" + n.name, list);
      CallbackIsSpelled(s, n, types);
      CallbackInTwo(TypeText(s, n.valueType) + s.gap, n.name, list);
      assert SpelledParam(s, p)[|SpelledParam(s, p)| - 1] == ')';
  }

  ghost predicate AllParams(params: seq<WrittenParam>) {
    forall k :: 0 <= k < |params| ==> IsParam(params[k])
  }

  lemma FirstParam(s: Style, params: seq<WrittenParam>)
    requires params != []
    ensures SpelledParams(s, params)[0] == SpelledParam(s, params[0])
    ensures SpelledParams(s, params)[1..] == SpelledParams(s, params[1..])
    ensures [MeantParam(params[0])] + MeantParams(params[1..]) == MeantParams(params)
  {
  }

  lemma ParametersNext(sources: seq<string>, first: CDeclaration, rest: seq<CDeclaration>)
    requires sources != []
    requires ParseParameter(sources[0]) == Ok(first) && ParseParameters(sources[1..]) == Ok(rest)
    ensures ParseParameters(sources) == Ok([first] + rest)
  {
  }

  /** However many parameters are written, each is read back in its place. */
  lemma {:induction false} ParametersAreRead(s: Style, params: seq<WrittenParam>)
    requires IsStyle(s) && AllParams(params)
    ensures ParseParameters(SpelledParams(s, params)) == Ok(MeantParams(params))
  {
    if params != [] {
      ParameterIsRead(s, params[0]);
      ParametersAreRead(s, params[1..]);
      FirstParam(s, params);
      ParametersNext(SpelledParams(s, params), MeantParam(params[0]), MeantParams(params[1..]));
    }
  }

  lemma ParametersAreItems(s: Style, params: seq<WrittenParam>)
    requires IsStyle(s) && AllParams(params)
    ensures AllItems(SpelledParams(s, params)) && SpelledParams(s, params) != ["void"]
  {
    forall k | 0 <= k < |params|
      ensures IsItem(SpelledParam(s, params[k])) && SpelledParam(s, params[k]) != "void"
    {
      ParameterIsItem(s, params[k]);
    }
    assert |params| == 1 ==> SpelledParams(s, params)[0] != "void";
  }

  lemma ListIsRead(s: Style, params: seq<WrittenParam>)
    requires IsStyle(s) && AllParams(params)
    ensures Balanced(PARENS, ListText(s, SpelledParams(s, params)))
    ensures ParamsIn(ListText(s, SpelledParams(s, params))) == Ok(MeantParams(params))
  {
    var texts := SpelledParams(s, params);
    ParametersAreItems(s, params);
    ListIsSplit(s, texts);
    if params == [] {
      assert MeantParams(params) == [];
    } else {
      ListIsNoEmptyList(s, texts);
      ParametersAreRead(s, params);
    }
  }

  // ----- Prototypes -----

  /** A statement is taken apart into what stands before its list and the list. */
  lemma PrototypeIsSplit(head: string, list: string)
    requires IsTidy(head) && '(' !in head && Balanced(PARENS, list)
    requires Find(head + "(" + list + ")", "...", 0) == None
    ensures ParseFunction(head + "(" + list + ")")
      == match ParseRegularDeclaration(head)
         case Err(e) => Err(e)
         case Ok(d) =>
           match ParamsIn(list)
           case Err(e) => Err(e)
           case Ok(params) => Ok(CFunction(d.name, d.valueType, params))
  {
    var s := head + "(" + list + ")";
    assert s == head + ['('] + (list + ")") && s == head + "(" + list + ")" + "";
    FindsFirstAt(head, '(', list + ")", 0);
    ClosesAfter(head, list, "");
    InteriorSplits(s, |head|);
    assert s[..|head|] == head && s[|head| + 1..|s| - 1] == list && s[|s| - 1 + 1..] == "";
    TidyIsTrimmed(head);
  }

  /** A character that no list of parameters is written with. */
  predicate IsForeign(s: Style, c: char) {
    !IsWordChar(c) && c !in "*()," && c !in s.gap && c !in s.pad
  }

  lemma WordLacks(word: string, c: char)
    requires IsWord(word) && !IsWordChar(c)
    ensures c !in word
  {
  }

  lemma NamedLacks(s: Style, n: WrittenName, c: char)
    requires IsStyle(s) && IsNamed(n) && IsForeign(s, c)
    ensures c !in NamedText(s, n) && c !in TypeText(s, n.valueType)
  {
    TypeLacks(s, n.valueType, c);
    WordLacks(n.name, c);
  }

  lemma TypeLacks(s: Style, t: WrittenType, c: char)
    requires IsStyle(s) && IsTypeWord(t.base) && IsForeign(s, c)
    ensures c !in TypeText(s, t)
  {
    WordLacks(t.base, c);
    WordLacks("const", c);
    assert "*" <= "*(),";
  }

  lemma {:induction false} JoinLacks(items: seq<string>, separator: string, c: char)
    requires c !in separator && forall i :: 0 <= i < |items| ==> c !in items[i]
    ensures c !in Join(items, separator)
  {
    if |items| > 1 {
      JoinLacks(items[1..], separator, c);
    }
  }

  lemma ListLacks(s: Style, items: seq<string>, c: char)
    requires IsStyle(s) && IsForeign(s, c) && forall i :: 0 <= i < |items| ==> c !in items[i]
    ensures c !in ListText(s, items)
  {
    WordLacks("void", c);
    JoinLacks(items, "," + s.pad, c);
  }

  lemma ParameterLacks(s: Style, p: WrittenParam, c: char)
    requires IsStyle(s) && IsParam(p) && IsForeign(s, c)
    ensures c !in SpelledParam(s, p)
  {
    NamedLacks(s, p.named, c);
    if p.Callback? {
      forall i | 0 <= i < |p.types|
        ensures c !in TypeText(s, p.types[i])
      {
        TypeLacks(s, p.types[i], c);
      }
      ListLacks(s, TypeTexts(s, p.types), c);
      WordLacks(p.named.name, c);
    }
  }

  lemma PrototypeLacks(s: Style, n: WrittenName, params: seq<WrittenParam>, c: char)
    requires IsStyle(s) && IsNamed(n) && AllParams(params) && IsForeign(s, c)
    ensures c !in DeclarationText(s, Prototype(n, params))
  {
    NamedLacks(s, n, c);
    forall k | 0 <= k < |params|
      ensures c !in SpelledParam(s, params[k])
    {
      ParameterLacks(s, params[k], c);
    }
    ListLacks(s, SpelledParams(s, params), c);
  }

  /** Whatever prototype is written, the function it stands for is read, with its parameters in their order. */
  lemma PrototypeIsRead(s: Style, n: WrittenName, params: seq<WrittenParam>)
    requires IsStyle(s) && IsNamed(n) && AllParams(params)
    ensures ParseFunction(DeclarationText(s, Prototype(n, params)))
      == Ok(CFunction(n.name, MeantType(n.valueType), MeantParams(params)))
  {
    var list := ListText(s, SpelledParams(s, params));
    PrototypeLacks(s, n, params, '.');
    FindsNothing(DeclarationText(s, Prototype(n, params)), "...");
    NamedIsItem(s, n);
    NamedIsRead(s, n);
    ListIsRead(s, params);
    PrototypeIsSplit(NamedText(s, n), list);
  }

  // ----- Typedefs -----

  ghost predicate AllNamed(fields: seq<WrittenName>) {
    forall k :: 0 <= k < |fields| ==> IsNamed(fields[k])
  }

  lemma {:induction false} SplitAcross(x: string, rest: string, delimiter: char)
    requires delimiter !in x
    ensures Split(x + [delimiter] + rest, delimiter) == [x] + Split(rest, delimiter)
    decreases |x|
  {
    var s := x + [delimiter] + rest;
    if x == "" {
      assert s[1..] == rest;
    } else {
      assert s[0] == x[0] && s[1..] == x[1..] + [delimiter] + rest;
      SplitAcross(x[1..], rest, delimiter);
      assert [x[0]] + x[1..] == x;
    }
  }

  lemma {:induction false} SplitOfOne(x: string, delimiter: char)
    requires delimiter !in x
    ensures Split(x, delimiter) == [x]
  {
    if x != "" {
      SplitOfOne(x[1..], delimiter);
      assert [x[0]] + x[1..] == x;
    }
  }

  function NamedTexts(s: Style, fields: seq<WrittenName>): (r: seq<string>)
    ensures |r| == |fields| && forall i :: 0 <= i < |r| ==> r[i] == NamedText(s, fields[i])
  {
    seq(|fields|, i requires 0 <= i < |fields| => NamedText(s, fields[i]))
  }

  lemma FirstField(s: Style, fields: seq<WrittenName>)
    requires fields != []
    ensures NamedTexts(s, fields) == [NamedText(s, fields[0])] + NamedTexts(s, fields[1..])
    ensures NamedTexts(s, fields)[0] == NamedText(s, fields[0])
    ensures NamedTexts(s, fields)[1..] == NamedTexts(s, fields[1..])
    ensures [MeantName(fields[0])] + MeantFields(fields[1..]) == MeantFields(fields)
  {
  }

  lemma DeclarationsNext(sources: seq<string>, first: CDeclaration, rest: seq<CDeclaration>)
    requires sources != []
    requires ParseRegularDeclaration(sources[0]) == Ok(first) && ParseRegularDeclarations(sources[1..]) == Ok(rest)
    ensures ParseRegularDeclarations(sources) == Ok([first] + rest)
  {
  }

  /** Between the braces each field is found once; the white space after the last is dropped. */
  lemma {:induction false} FieldsAreSplit(s: Style, fields: seq<WrittenName>)
    requires IsStyle(s) && AllNamed(fields)
    ensures FieldSources(FieldsText(s, fields)) == NamedTexts(s, fields)
  {
    BlankHasNone(s.pad);
    if fields == [] {
      SplitOfOne(s.pad, ';');
      TrimOfTidy(s.pad, "");
      assert s.pad + "" == s.pad;
      assert NonEmpty([""]) == NonEmpty([]);
      assert Trimmed([s.pad]) == [""];
    } else {
      NamedIsItem(s, fields[0]);
      NamedIsFlat(s, fields[0]);
      FieldsAreSplit(s, fields[1..]);
      FieldIsCutOff(s.pad, NamedText(s, fields[0]), FieldsText(s, fields[1..]));
      FirstField(s, fields);
    }
  }

  lemma FieldIsCutOff(pad: string, text: string, rest: string)
    requires IsBlank(pad) && IsTidy(text) && ';' !in text
    ensures FieldSources(pad + text + ";" + rest) == [text] + FieldSources(rest)
  {
    BlankHasNone(pad);
    SplitAcross(pad + text, rest, ';');
    assert pad + text + ";" + rest == pad + text + [';'] + rest;
    TrimmedCons(pad + text, Split(rest, ';'));
    TrimOfTidy(pad, text);
    NonEmptyFirst(text, Trimmed(Split(rest, ';')));
  }

  lemma NonEmptyFirst(text: string, rest: seq<string>)
    requires text != ""
    ensures NonEmpty([text] + rest) == [text] + NonEmpty(rest)
  {
    assert ([text] + rest)[1..] == rest;
  }

  /** However many fields are written, each is read back in its place. */
  lemma {:induction false} FieldsAreRead(s: Style, fields: seq<WrittenName>)
    requires IsStyle(s) && AllNamed(fields)
    ensures ParseRegularDeclarations(NamedTexts(s, fields)) == Ok(MeantFields(fields))
  {
    if fields != [] {
      NamedIsRead(s, fields[0]);
      FieldsAreRead(s, fields[1..]);
      FirstField(s, fields);
      DeclarationsNext(NamedTexts(s, fields), MeantName(fields[0]), MeantFields(fields[1..]));
    }
  }

  lemma {:induction false} FieldsHaveNoBraces(s: Style, fields: seq<WrittenName>)
    requires IsStyle(s) && AllNamed(fields)
    ensures '{' !in FieldsText(s, fields) && '}' !in FieldsText(s, fields)
  {
    BlankHasNone(s.pad);
    if fields != [] {
      NamedIsFlat(s, fields[0]);
      FieldsHaveNoBraces(s, fields[1..]);
    }
  }

  lemma TokensOfTwo(first: string, second: string, gap: string, rest: string)
    requires IsWord(first) && IsWord(second) && gap != "" && IsBlank(gap)
    ensures Tokens(first + (gap + (second + (gap + rest)))) == [first, second] + TokensFrom(rest, "")
  {
    TokensOfFirst(second, gap, rest);
    TokensOfFirst(first, gap, second + (gap + rest));
  }

  lemma TypedefIsTwoWords(rest: string)
    ensures TYPEDEF + rest == "typedef" + (" " + ("struct" + (" " + rest)))
  {
    assert TYPEDEF == "typedef" + " " + "struct" + " ";
  }

  lemma TokensOfTypedef(rest: string)
    ensures Tokens(TYPEDEF + rest) == ["typedef", "struct"] + TokensFrom(rest, "")
  {
    TypedefIsTwoWords(rest);
    TokensOfTwo("typedef", "struct", " ", rest);
  }

  /** `typedef struct Name Name` declares an opaque type. */
  lemma OpaqueIsRead(s: Style, name: string)
    requires IsStyle(s) && IsWord(name)
    ensures ParseOpaqueTypedef(DeclarationText(s, OpaqueTypedef(name))) == Ok(name)
  {
    TokensOfTypedef(name + (s.gap + name));
    TokensOfFirst(name, s.gap, name);
    TokensOfLast(name);
  }

  lemma TokensAround(s: Style, name: string)
    requires IsStyle(s) && IsWord(name)
    ensures Tokens(TYPEDEF + (name + s.gap)) == ["typedef", "struct", name]
    ensures Tokens(s.gap + name) == [name]
  {
    TokensOfTypedef(name + s.gap);
    assert s.gap + "" == s.gap;
    TokensOfFirst(name, s.gap, "");
    TokensOfGap(s.gap, name, "");
    TokensOfLast(name);
  }

  /** Where the braces of a struct are. */
  lemma StructPlaces(before: string, inside: string, after: string)
    requires '{' !in before && '}' !in before && '{' !in inside && '}' !in inside && '{' !in after && '}' !in after
    ensures var s := before + "{" + inside + "}" + after;
      && FindFirst(s, '{', 0) == Some(|before|)
      && FindLast(s, '}') == Some(|before| + 1 + |inside|)
      && s[..|before|] == before && s[|before| + 1..|before| + 1 + |inside|] == inside
      && s[|before| + 1 + |inside| + 1..] == after
      && '{' in s
  {
    var s := before + "{" + inside + "}" + after;
    assert s == before + ['{'] + (inside + "}" + after);
    FindsFirstAt(before, '{', inside + "}" + after, 0);
    FindsLastAt(s, '}', |before| + 1 + |inside|);
    assert s[|before|] == '{';
  }

  lemma StructIsBalanced(before: string, inside: string, after: string)
    requires '{' !in before && '}' !in before && '{' !in inside && '}' !in inside && '{' !in after && '}' !in after
    ensures Balanced(BRACES, before + "{" + inside + "}" + after)
  {
    var s := before + "{" + inside + "}" + after;
    var braces := [BRACES.open] + inside + [BRACES.close];
    PlainIsBalanced(BRACES, before);
    PlainIsBalanced(BRACES, inside);
    PlainIsBalanced(BRACES, after);
    BalancedInside(BRACES, inside);
    BalancedTogether(BRACES, before, braces);
    BalancedTogether(BRACES, before + braces, after);
    assert s == before + braces + after;
  }

  lemma WordHasNoBraces(s: Style, name: string)
    requires IsStyle(s) && IsWord(name)
    ensures forall c :: c in TYPEDEF + (name + s.gap) ==> c != '{' && c != '}' && c != ';'
    ensures forall c :: c in s.gap + name ==> c != '{' && c != '}' && c != ';'
  {
  }

  lemma StructFromParts(s: string, open: nat, close: nat, name: string, inside: string)
    requires Balanced(BRACES, s) && '{' in s
    requires FindFirst(s, '{', 0) == Some(open) && FindLast(s, '}') == Some(close) && open < close
    requires Tokens(s[..open]) == ["typedef", "struct", name] && Tokens(s[close + 1..]) == [name]
    requires s[open + 1..close] == inside
    ensures ParseStructTypedef(s)
      == match ParseRegularDeclarations(FieldSources(inside))
         case Err(e) => Err(e)
         case Ok(fields) => if fields == [] then Err(EmptyStruct(name)) else Ok(CStruct(name, fields))
  {
  }

  lemma StructIsSplit(before: string, inside: string, after: string, name: string)
    requires '{' !in before && '}' !in before && '{' !in inside && '}' !in inside && '{' !in after && '}' !in after
    requires Tokens(before) == ["typedef", "struct", name] && Tokens(after) == [name]
    ensures var s := before + "{" + inside + "}" + after;
      && Balanced(BRACES, s) && '{' in s
      && ParseStructTypedef(s)
        == match ParseRegularDeclarations(FieldSources(inside))
           case Err(e) => Err(e)
           case Ok(fields) => if fields == [] then Err(EmptyStruct(name)) else Ok(CStruct(name, fields))
  {
    StructPlaces(before, inside, after);
    StructIsBalanced(before, inside, after);
    StructFromParts(before + "{" + inside + "}" + after, |before|, |before| + 1 + |inside|, name, inside);
  }

  /** Whatever struct is written, its fields are read in their order; one without fields is refused by name. */
  lemma StructIsRead(s: Style, name: string, fields: seq<WrittenName>)
    requires IsStyle(s) && IsWord(name) && AllNamed(fields)
    ensures var text := DeclarationText(s, StructTypedef(name, fields));
      && Balanced(BRACES, text) && '{' in text
      && ParseStructTypedef(text)
        == if fields == [] then Err(EmptyStruct(name)) else Ok(CStruct(name, MeantFields(fields)))
  {
    WordHasNoBraces(s, name);
    FieldsHaveNoBraces(s, fields);
    TokensAround(s, name);
    FieldsAreSplit(s, fields);
    FieldsAreRead(s, fields);
    StructIsSplit(TYPEDEF + (name + s.gap), FieldsText(s, fields), s.gap + name, name);
  }
}
