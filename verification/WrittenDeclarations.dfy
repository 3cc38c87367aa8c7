/** C declarations as they are written, and that reading them gives back what was written. */
module WrittenDeclarations {
  import opened Wrappers
  import opened Texts
  import opened Declarations

  // ----- What is written -----

  /** A word, with `const` before it and a star after it if so wished. */
  datatype WrittenType = WrittenType(isConst: bool, base: string, pointer: bool)

  datatype WrittenName = WrittenName(valueType: WrittenType, name: string)

  /** A callback has the type it returns and its name in the same place as any other parameter. */
  datatype WrittenParam = Plain(named: WrittenName) | Callback(named: WrittenName, types: seq<WrittenType>)

  datatype WrittenDeclaration =
    | OpaqueTypedef(name: string)
    | StructTypedef(name: string, fields: seq<WrittenName>)
    | Prototype(named: WrittenName, params: seq<WrittenParam>)

  /** White space between words, white space around list items, and what an empty list says. */
  datatype Style = Style(gap: string, pad: string, nothing: string)

  predicate IsBlank(s: string) {
    forall i :: 0 <= i < |s| ==> IsSpace(s[i])
  }

  predicate IsStyle(s: Style) {
    s.gap != "" && IsBlank(s.gap) && IsBlank(s.pad) && (s.nothing == "" || s.nothing == "void")
  }

  predicate IsTypeWord(base: string) {
    IsWord(base) && base != "const"
  }

  predicate IsNamed(n: WrittenName) {
    IsTypeWord(n.valueType.base) && IsIdentifier(n.name)
  }

  predicate IsParam(p: WrittenParam) {
    IsNamed(p.named) && (p.Callback? ==> forall t :: t in p.types ==> IsTypeWord(t.base))
  }

  function TypeText(s: Style, t: WrittenType): string {
    (if t.isConst then "const" + s.gap else "") + (t.base + (if t.pointer then s.gap + "*" else ""))
  }

  function NamedText(s: Style, n: WrittenName): string {
    TypeText(s, n.valueType) + ((if n.valueType.pointer then "" else s.gap) + n.name)
  }

  function ListText(s: Style, items: seq<string>): string {
    if items == [] then s.nothing else Join(items, "," + s.pad)
  }

  function TypeTexts(s: Style, types: seq<WrittenType>): (r: seq<string>)
    ensures |r| == |types| && forall i :: 0 <= i < |r| ==> r[i] == TypeText(s, types[i])
  {
    seq(|types|, i requires 0 <= i < |types| => TypeText(s, types[i]))
  }

  function SpelledParam(s: Style, p: WrittenParam): string {
    match p
    case Plain(n) => NamedText(s, n)
    case Callback(n, types) =>
      TypeText(s, n.valueType) + s.gap + "(*" + (n.name + ")" + ("(" + ListText(s, TypeTexts(s, types)) + ")"))
  }

  function SpelledParams(s: Style, params: seq<WrittenParam>): (r: seq<string>)
    ensures |r| == |params| && forall i :: 0 <= i < |r| ==> r[i] == SpelledParam(s, params[i])
  {
    seq(|params|, i requires 0 <= i < |params| => SpelledParam(s, params[i]))
  }

  function FieldsText(s: Style, fields: seq<WrittenName>): string {
    if fields == [] then s.pad else s.pad + NamedText(s, fields[0]) + ";" + FieldsText(s, fields[1..])
  }

  function DeclarationText(s: Style, d: WrittenDeclaration): string {
    match d
    case OpaqueTypedef(name) => TYPEDEF + (name + (s.gap + name))
    case StructTypedef(name, fields) =>
      TYPEDEF + (name + s.gap) + "{" + FieldsText(s, fields) + "}" + (s.gap + name)
    case Prototype(n, params) => NamedText(s, n) + "(" + ListText(s, SpelledParams(s, params)) + ")"
  }

  // ----- What is meant -----

  function MeantType(t: WrittenType): CType {
    CType(t.base, t.pointer, t.isConst, None)
  }

  const VOID := WrittenType(false, "void", false)

  function MeantEach(types: seq<WrittenType>): (r: seq<CType>)
    ensures |r| == |types| && forall k :: 0 <= k < |r| ==> r[k] == MeantType(types[k])
  {
    seq(|types|, k requires 0 <= k < |types| => MeantType(types[k]))
  }

  /** `(void)` is the empty list. */
  function MeantTypes(types: seq<WrittenType>): seq<CType> {
    if types == [VOID] then [] else MeantEach(types)
  }

  function MeantName(n: WrittenName): CDeclaration {
    CDeclaration(n.name, MeantType(n.valueType))
  }

  function MeantParam(p: WrittenParam): CDeclaration {
    match p
    case Plain(n) => MeantName(n)
    case Callback(n, types) =>
      CDeclaration(
        n.name, CType("callback", false, false, Some(CCallback(MeantType(n.valueType), MeantTypes(types)))))
  }

  function MeantParams(params: seq<WrittenParam>): (r: seq<CDeclaration>)
    ensures |r| == |params| && forall k :: 0 <= k < |r| ==> r[k] == MeantParam(params[k])
  {
    seq(|params|, k requires 0 <= k < |params| => MeantParam(params[k]))
  }

  function MeantFields(fields: seq<WrittenName>): (r: seq<CDeclaration>)
    ensures |r| == |fields| && forall k :: 0 <= k < |r| ==> r[k] == MeantName(fields[k])
  {
    seq(|fields|, k requires 0 <= k < |fields| => MeantName(fields[k]))
  }

  /** The declaration a statement stands for. */
  function Meant(d: WrittenDeclaration): Declared {
    match d
    case OpaqueTypedef(name) => Opaque(name)
    case StructTypedef(name, fields) => Struct(CStruct(name, MeantFields(fields)))
    case Prototype(n, params) => Function(CFunction(n.name, MeantType(n.valueType), MeantParams(params)))
  }

  // ----- Tokens -----

  lemma {:induction false} TokensOfWord(word: string, rest: string, current: string)
    requires forall i :: 0 <= i < |word| ==> IsWordChar(word[i])
    ensures TokensFrom(word + rest, current) == TokensFrom(rest, current + word)
    decreases |word|
  {
    if word == "" {
      assert word + rest == rest && current + word == current;
    } else {
      assert (word + rest)[1..] == word[1..] + rest;
      TokensOfWord(word[1..], rest, current + [word[0]]);
      assert current + [word[0]] + word[1..] == current + word;
    }
  }

  lemma {:induction false} TokensOfGap(gap: string, rest: string, current: string)
    requires gap != "" && IsBlank(gap)
    ensures TokensFrom(gap + rest, current) == Flushed(current) + TokensFrom(rest, "")
    decreases |gap|
  {
    var s := gap + rest;
    assert s[0] == gap[0] && s[1..] == gap[1..] + rest;
    if |gap| == 1 {
      assert gap[1..] + rest == rest;
    } else {
      TokensOfGap(gap[1..], rest, "");
    }
    assert Flushed(current) + [] + TokensFrom(rest, "") == Flushed(current) + TokensFrom(rest, "");
  }

  /** A word with nothing or a gap after it. */
  lemma TokensOfLast(word: string)
    requires IsWord(word)
    ensures TokensFrom(word, "") == [word]
  {
    TokensOfWord(word, "", "");
    assert word + "" == word && "" + word == word;
  }

  lemma TokensOfFirst(word: string, gap: string, rest: string)
    requires IsWord(word) && gap != "" && IsBlank(gap)
    ensures TokensFrom(word + (gap + rest), "") == [word] + TokensFrom(rest, "")
  {
    TokensOfWord(word, gap + rest, "");
    TokensOfGap(gap, rest, word);
    assert "" + word == word;
  }

  function TypeTokens(t: WrittenType): seq<string> {
    (if t.isConst then ["const"] else []) + ([t.base] + (if t.pointer then ["*"] else []))
  }

  lemma TokensOfStarred(base: string, gap: string, rest: string)
    requires IsWord(base) && gap != "" && IsBlank(gap)
    ensures TokensFrom(base + (gap + "*") + rest, "") == [base] + ["*"] + TokensFrom(rest, "")
  {
    var star := "*" + rest;
    assert base + (gap + "*") + rest == base + (gap + star);
    TokensOfFirst(base, gap, star);
    assert star[0] == '*' && star[1..] == rest;
    assert TokensFrom(star, "") == Flushed("") + ["*"] + TokensFrom(rest, "");
  }

  /** After `const`, if it is there. */
  lemma TokensOfConst(s: Style, isConst: bool, rest: string)
    requires IsStyle(s)
    ensures TokensFrom((if isConst then "const" + s.gap else "") + rest, "")
      == (if isConst then ["const"] else []) + TokensFrom(rest, "")
  {
    if isConst {
      assert "const" + s.gap + rest == "const" + (s.gap + rest);
      TokensOfFirst("const", s.gap, rest);
    } else {
      assert "" + rest == rest;
    }
  }

  lemma TokensOfType(s: Style, t: WrittenType)
    requires IsStyle(s) && IsTypeWord(t.base)
    ensures Tokens(TypeText(s, t)) == TypeTokens(t)
  {
    TokensOfConst(s, t.isConst, t.base + (if t.pointer then s.gap + "*" else ""));
    if t.pointer {
      TokensOfStarred(t.base, s.gap, "");
      assert t.base + (s.gap + "*") + "" == t.base + (s.gap + "*");
    } else {
      TokensOfLast(t.base);
      assert t.base + "" == t.base;
    }
  }

  lemma TokensOfNamed(s: Style, n: WrittenName)
    requires IsStyle(s) && IsNamed(n)
    ensures Tokens(NamedText(s, n)) == TypeTokens(n.valueType) + [n.name]
  {
    var t := n.valueType;
    var before := if t.isConst then "const" + s.gap else "";
    TokensOfLast(n.name);
    if t.pointer {
      TokensOfStarred(t.base, s.gap, n.name);
      assert NamedText(s, n) == before + (t.base + (s.gap + "*") + n.name);
      TokensOfConst(s, t.isConst, t.base + (s.gap + "*") + n.name);
    } else {
      TokensOfFirst(t.base, s.gap, n.name);
      assert NamedText(s, n) == before + (t.base + (s.gap + n.name));
      TokensOfConst(s, t.isConst, t.base + (s.gap + n.name));
    }
  }

  lemma TokensFirst(x: string, rest: seq<string>)
    ensures Stars([x] + rest) == (if x == "*" then 1 else 0) + Stars(rest)
    ensures BaseTokens([x] + rest) == (if x == "*" || x == "const" then [] else [x]) + BaseTokens(rest)
  {
    assert ([x] + rest)[1..] == rest;
  }

  lemma WordIsNoStar(word: string)
    requires IsWord(word)
    ensures word != "*"
  {
    assert IsWordChar(word[0]) && "*"[0] == '*';
  }

  lemma TypeOfTokens(t: WrittenType, source: string)
    requires IsTypeWord(t.base)
    ensures ParseTypeTokens(TypeTokens(t), source) == Ok(MeantType(t))
  {
    var stars := if t.pointer then ["*"] else [];
    var tail := [t.base] + stars;
    WordIsNoStar(t.base);
    assert Stars([]) == 0 && BaseTokens([]) == [];
    TokensFirst("*", []);
    assert ["*"] + [] == ["*"];
    TokensFirst(t.base, stars);
    TokensFirst("const", tail);
    assert "const" !in tail;
    assert TypeTokens(t) == if t.isConst then ["const"] + tail else tail;
  }

  /** Words, white space and stars only. */
  predicate IsFlat(s: string) {
    forall i :: 0 <= i < |s| ==> IsWordChar(s[i]) || IsSpace(s[i]) || s[i] == '*'
  }

  lemma TypeIsFlat(s: Style, t: WrittenType)
    requires IsStyle(s) && IsTypeWord(t.base)
    ensures IsFlat(TypeText(s, t))
  {
    assert IsFlat("const" + s.gap) && IsFlat("") && IsFlat(s.gap + "*");
  }

  lemma NamedIsFlat(s: Style, n: WrittenName)
    requires IsStyle(s) && IsNamed(n)
    ensures IsFlat(NamedText(s, n))
  {
    TypeIsFlat(s, n.valueType);
  }

  lemma TypeIsRead(s: Style, t: WrittenType)
    requires IsStyle(s) && IsTypeWord(t.base)
    ensures ParseAbstractType(TypeText(s, t)) == Ok(MeantType(t))
  {
    TokensOfType(s, t);
    TypeOfTokens(t, TypeText(s, t));
  }

  lemma NamedIsRead(s: Style, n: WrittenName)
    requires IsStyle(s) && IsNamed(n)
    ensures ParseRegularDeclaration(NamedText(s, n)) == Ok(MeantName(n))
  {
    var source, types := NamedText(s, n), TypeTokens(n.valueType);
    TokensOfNamed(s, n);
    TypeOfTokens(n.valueType, source);
    NamedIsFlat(s, n);
    assert (types + [n.name])[..|types|] == types;
    assert '[' !in source && ']' !in source && ':' !in source;
  }
}
