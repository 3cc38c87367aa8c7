/** A header whose binding shows the order of its declarations. */
module RepeatedNames {
  import opened Wrappers
  import opened Ordering
  import opened Texts
  import opened Declarations
  import opened Bindings
  import opened BindingTexts
  import opened OrderVisibility
  import opened HeaderOrder
  import opened WrittenDeclarations
  import opened WrittenHeaders

  // ----- The header -----

  const PLAIN := Style(" ", "", "")

  /** The prototype `base f()`. */
  function Prototyped(base: string): WrittenDeclaration {
    Prototype(WrittenName(WrittenType(false, base, false), "f"), [])
  }

  function Returning(base: string): CFunction {
    CFunction("f", CType(base, false, false, None), [])
  }

  lemma TwoFunctions(f: CFunction, g: CFunction)
    requires f.name == g.name
    ensures HeadersOf([Function(f), Function(g)]) == Headers([], [], [f, g])
  {
    var none: seq<Declared> := [];
    GatheredNext(none, [Function(f)], Function(f));
    GatheredNext([Function(f)], [Function(f), Function(g)], Function(g));
    assert [] + [f] + [g] == [f, g];
    StringLeqTotal(f.name, f.name);
    SortOfSorted(ByFunctionName(), [f, g]);
  }

  /** Two prototypes of one name. */
  function Header(first: string, second: string): string {
    HeaderText(PLAIN, [Prototyped(first), Prototyped(second)], "")
  }

  lemma BothAreRead(package: string, first: string, second: string)
    requires IsTypeWord(first) && IsTypeWord(second)
    ensures Generated(package, Header(first, second))
      == RenderedIn(package, Headers([], [], [Returning(first), Returning(second)]))
  {
    HeaderIsRead(package, PLAIN, [Prototyped(first), Prototyped(second)], "");
    BothAreMeant(first, second);
    TwoFunctions(Returning(first), Returning(second));
  }

  lemma BothAreMeant(first: string, second: string)
    ensures Meants([Prototyped(first), Prototyped(second)])
      == [Function(Returning(first)), Function(Returning(second))]
  {
    assert MeantParams([]) == [];
  }

  lemma ReturnsAreRendered(scope: Scope)
    ensures FunctionText(Returning("int"), scope) == Ok("    fn f() -> i32\n")
    ensures FunctionText(Returning("double"), scope) == Ok("    fn f() -> f64\n")
  {
    assert "    fn " + "f" + "(" + "" + ")" + (" -> " + "i32") + "\n" == "    fn f() -> i32\n";
    assert "    fn " + "f" + "(" + "" + ")" + (" -> " + "f64") + "\n" == "    fn f() -> f64\n";
  }

  lemma OneNameIsInOrder(f: CFunction, g: CFunction)
    requires f.name == g.name
    ensures InOrder(Headers([], [], [f, g]))
  {
    StringLeqTotal(f.name, f.name);
  }

  lemma TextsOfBoth(scope: Scope)
    ensures FunctionTexts([Returning("int"), Returning("double")], scope).Ok?
    ensures FunctionTexts([Returning("double"), Returning("int")], scope)
      != FunctionTexts([Returning("int"), Returning("double")], scope)
  {
    var f, g := Returning("int"), Returning("double");
    ReturnsAreRendered(scope);
    FunctionTextsCombine([f, g], scope);
    CombinedValues(FunctionResults([f, g], scope), ["    fn f() -> i32\n", "    fn f() -> f64\n"]);
    SwappedFunctionTexts([f, g], scope, 0);
    assert Swapped([f, g], 0) == [g, f];
  }

  lemma ExchangeIsRendered(package: string, h: Headers, h': Headers)
    requires h == Headers([], [], [Returning("int"), Returning("double")])
    requires h' == Headers([], [], [Returning("double"), Returning("int")])
    ensures RenderedIn(package, h).Ok? && RenderedIn(package, h').Ok?
    ensures RenderedIn(package, h') != RenderedIn(package, h)
  {
    OneNameIsInOrder(h.functions[0], h.functions[1]);
    SwappedFunctionsAreRearranged(h, 0);
    assert h' == h.(functions := Swapped(h.functions, 0));
    ScopeForgetsOrder(h, h');
    TextsOfBoth(ScopeIn(h));
    RenderedFrom(package, h);
    OkInAnyOrder(package, h, h');
    DifferentFunctionsShow(package, h, h');
  }

  lemma TwoAreWritten(x: string, y: string)
    ensures Written([x, y], "") == x + ";" + y + ";"
  {
    var all := [x, y, ""];
    assert [x, y] + [""] == all && all[1..] == [y, ""] && [y, ""][1..] == [""];
    assert Join([y, ""], [';']) == y + [';'] + "";
    assert Join(all, [';']) == x + [';'] + Join(all[1..], [';']);
  }

  lemma PrototypedText(base: string)
    ensures DeclarationText(PLAIN, Prototyped(base)) == base + " f()"
  {
    assert SpelledParams(PLAIN, []) == [];
    assert TypeText(PLAIN, WrittenType(false, base, false)) == base;
    assert base + (" " + "f") + "(" + "" + ")" == base + " f()";
  }

  lemma TextsOfTwo(first: string, second: string)
    ensures DeclarationTexts(PLAIN, [Prototyped(first), Prototyped(second)]) == [first + " f()", second + " f()"]
  {
    PrototypedText(first);
    PrototypedText(second);
    assert "" + (first + " f()") == first + " f()" && "" + (second + " f()") == second + " f()";
  }

  lemma HeaderIsWritten(first: string, second: string)
    ensures Header(first, second) == first + " f();" + second + " f();"
  {
    TextsOfTwo(first, second);
    TwoAreWritten(first + " f()", second + " f()");
    assert first + " f()" + ";" + (second + " f()") + ";" == first + " f();" + second + " f();";
  }

  lemma SpelledOut()
    ensures "int" + " f();" + "double" + " f();" == "int f();double f();"
    ensures "double" + " f();" + "int" + " f();" == "double f();int f();"
  {
  }

  /** Two prototypes that disagree on a result have different bindings in the two orders. */
  lemma DuplicateNamesShowOrder(package: string)
    ensures var s, t := "int f();double f();", "double f();int f();";
      && Generated(package, s).Ok? && Generated(package, t).Ok?
      && Generated(package, s) != Generated(package, t)
  {
    BothAreRead(package, "int", "double");
    BothAreRead(package, "double", "int");
    HeaderIsWritten("int", "double");
    HeaderIsWritten("double", "int");
    SpelledOut();
    ExchangeIsRendered(
      package,
      Headers([], [], [Returning("int"), Returning("double")]),
      Headers([], [], [Returning("double"), Returning("int")]));
  }
}
