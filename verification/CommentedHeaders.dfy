/** Headers with comments: whatever comments are written into a header, its binding is that of the code around them. */
module CommentedHeaders {
  import opened Wrappers
  import opened HeaderComments
  import opened HeaderInputs
  import opened OrderVisibility
  import opened WrittenDeclarations
  import opened WrittenHeaders

  /** The inside of a block comment: characters, and further comments. */
  datatype Inside = Nothing | Chars(text: string, rest: Inside) | Nested(inner: Inside, rest: Inside)

  /** Code, comments to the end of a line, and block comments. */
  datatype Commented =
    | End
    | Code(text: string, rest: Commented)
    | LineNote(text: string, rest: Commented)
    | BlockNote(inside: Inside, rest: Commented)

  /** Characters that neither begin nor end a comment, whatever follows them. */
  predicate IsQuiet(text: string) {
    '/' !in text && (text == "" || text[|text| - 1] != '*')
  }

  predicate IsInside(i: Inside) {
    match i
    case Nothing => true
    case Chars(text, rest) => IsQuiet(text) && IsInside(rest)
    case Nested(inner, rest) => IsInside(inner) && IsInside(rest)
  }

  predicate IsCommented(c: Commented) {
    match c
    case End => true
    case Code(text, rest) => '/' !in text && IsCommented(rest)
    case LineNote(text, rest) => '\n' !in text && IsCommented(rest)
    case BlockNote(inside, rest) => IsInside(inside) && IsCommented(rest)
  }

  function InsideText(i: Inside): string {
    match i
    case Nothing => ""
    case Chars(text, rest) => text + InsideText(rest)
    case Nested(inner, rest) => "/*" + (InsideText(inner) + ("*/" + InsideText(rest)))
  }

  function CommentedText(c: Commented): string {
    match c
    case End => ""
    case Code(text, rest) => text + CommentedText(rest)
    case LineNote(text, rest) => "//" + (text + ("\n" + CommentedText(rest)))
    case BlockNote(inside, rest) => "/*" + (InsideText(inside) + ("*/" + CommentedText(rest)))
  }

  // ----- What is left -----

  function LineFeeds(text: string): string {
    if text == "" then "" else (if text[0] == '\n' then "\n" else "") + LineFeeds(text[1..])
  }

  function BreaksOf(i: Inside): string {
    match i
    case Nothing => ""
    case Chars(text, rest) => LineFeeds(text) + BreaksOf(rest)
    case Nested(inner, rest) => BreaksOf(inner) + BreaksOf(rest)
  }

  /** The code, and of the comments their line feeds. */
  function CodeOf(c: Commented): string {
    match c
    case End => ""
    case Code(text, rest) => text + CodeOf(rest)
    case LineNote(_, rest) => "\n" + CodeOf(rest)
    case BlockNote(inside, rest) => BreaksOf(inside) + CodeOf(rest)
  }

  lemma {:induction false} CharsAreSkipped(text: string, tail: string, depth: nat)
    requires IsQuiet(text) && depth > 0
    ensures Stripped(text + tail, depth) == Prefixed(LineFeeds(text), Stripped(tail, depth))
    decreases |text|
  {
    var s := text + tail;
    if text == "" {
      assert s == tail;
      PrefixedByNothing(Stripped(tail, depth));
    } else {
      assert s[0] == text[0] && s[1..] == text[1..] + tail;
      assert !Opens(s) && !Closes(s) by {
        assert |text| > 1 ==> s[1] == text[1];
      }
      CharsAreSkipped(text[1..], tail, depth);
      PrefixedTwice(if s[0] == '\n' then "\n" else "", LineFeeds(text[1..]), Stripped(tail, depth));
    }
  }

  lemma Opened(rest: string, depth: nat)
    ensures Stripped("/*" + rest, depth) == Stripped(rest, depth + 1)
  {
    var s := "/*" + rest;
    assert s[0] == '/' && s[1] == '*' && s[2..] == rest;
  }

  lemma Closed(rest: string, depth: nat)
    ensures Stripped("*/" + rest, depth + 1) == Stripped(rest, depth)
  {
    var s := "*/" + rest;
    assert s[0] == '*' && s[1] == '/' && s[2..] == rest;
  }


  /** Comments inside a comment are skipped with it, at whatever depth. */
  lemma {:induction false} InsideIsSkipped(i: Inside, tail: string, depth: nat)
    requires IsInside(i) && depth > 0
    ensures Stripped(InsideText(i) + tail, depth) == Prefixed(BreaksOf(i), Stripped(tail, depth))
    decreases i
  {
    match i
    case Nothing =>
      assert "" + tail == tail;
      PrefixedByNothing(Stripped(tail, depth));
    case Chars(text, rest) =>
      InsideIsSkipped(rest, tail, depth);
      CharsAreSkipped(text, InsideText(rest) + tail, depth);
      assert text + InsideText(rest) + tail == text + (InsideText(rest) + tail);
      PrefixedTwice(LineFeeds(text), BreaksOf(rest), Stripped(tail, depth));
    case Nested(inner, rest) =>
      var after := InsideText(rest) + tail;
      InsideIsSkipped(rest, tail, depth);
      Closed(after, depth);
      InsideIsSkipped(inner, "*/" + after, depth + 1);
      Opened(InsideText(inner) + ("*/" + after), depth);
      NestedRegrouped(InsideText(inner), InsideText(rest), tail);
      PrefixedTwice(BreaksOf(inner), BreaksOf(rest), Stripped(tail, depth));
  }

  lemma NestedRegrouped(inner: string, rest: string, tail: string)
    ensures "/*" + (inner + ("*/" + rest)) + tail == "/*" + (inner + ("*/" + (rest + tail)))
  {
  }

  lemma {:induction false} CodeIsKept(text: string, tail: string)
    requires '/' !in text
    ensures Stripped(text + tail, 0) == Prefixed(text, Stripped(tail, 0))
    decreases |text|
  {
    var s := text + tail;
    if text == "" {
      assert s == tail;
      PrefixedByNothing(Stripped(tail, 0));
    } else {
      assert s[0] == text[0] && s[1..] == text[1..] + tail;
      CodeIsKept(text[1..], tail);
      PrefixedTwice([text[0]], text[1..], Stripped(tail, 0));
      assert [text[0]] + text[1..] == text;
    }
  }

  lemma {:induction false} LineEndAfter(text: string, tail: string)
    requires '\n' !in text
    ensures LineEnd(text + ("\n" + tail)) == "\n" + tail
  {
    var s := text + ("\n" + tail);
    if text == "" {
      assert s == "\n" + tail;
    } else {
      assert s[0] == text[0] && s[1..] == text[1..] + ("\n" + tail);
      LineEndAfter(text[1..], tail);
    }
  }

  lemma LineIsSkipped(text: string, tail: string)
    requires '\n' !in text
    ensures Stripped("//" + (text + ("\n" + tail)), 0) == Prefixed("\n", Stripped(tail, 0))
  {
    var s := "//" + (text + ("\n" + tail));
    assert s[0] == '/' && s[1] == '/';
    assert s == ("//" + text) + ("\n" + tail);
    LineEndAfter("//" + text, tail);
    CodeIsKept("\n", tail);
  }

  /** Whatever comments are written, the code is left, and a line feed for each that stood in a comment. */
  lemma {:induction false} CommentsAreRemoved(c: Commented)
    requires IsCommented(c)
    ensures Stripped(CommentedText(c), 0) == Some(CodeOf(c))
    decreases c
  {
    match c
    case End =>
    case Code(text, rest) =>
      CommentsAreRemoved(rest);
      CodeIsKept(text, CommentedText(rest));
    case LineNote(text, rest) =>
      CommentsAreRemoved(rest);
      LineIsSkipped(text, CommentedText(rest));
    case BlockNote(inside, rest) =>
      CommentsAreRemoved(rest);
      Opened(InsideText(inside) + ("*/" + CommentedText(rest)), 0);
      InsideIsSkipped(inside, "*/" + CommentedText(rest), 1);
      Closed(CommentedText(rest), 0);
  }

  /** A comment that is not closed is reported, whatever comments were closed before it and inside it. */
  lemma {:induction false} OpenCommentIsReported(c: Commented, inside: Inside)
    requires IsCommented(c) && IsInside(inside)
    ensures Stripped(CommentedText(c) + ("/*" + InsideText(inside)), 0) == None
    decreases c
  {
    var tail := "/*" + InsideText(inside);
    match c
    case End =>
      assert "" + tail == tail;
      Opened(InsideText(inside), 0);
      InsideIsSkipped(inside, "", 1);
      assert InsideText(inside) + "" == InsideText(inside);
    case Code(text, rest) =>
      OpenCommentIsReported(rest, inside);
      CodeIsKept(text, CommentedText(rest) + tail);
      assert text + CommentedText(rest) + tail == text + (CommentedText(rest) + tail);
    case LineNote(text, rest) =>
      OpenCommentIsReported(rest, inside);
      LineIsSkipped(text, CommentedText(rest) + tail);
      LineRegrouped(text, CommentedText(rest), tail);
    case BlockNote(first, rest) =>
      OpenCommentIsReported(rest, inside);
      var after := CommentedText(rest) + tail;
      Opened(InsideText(first) + ("*/" + after), 0);
      InsideIsSkipped(first, "*/" + after, 1);
      Closed(after, 0);
      NestedRegrouped(InsideText(first), CommentedText(rest), tail);
  }

  lemma LineRegrouped(text: string, rest: string, tail: string)
    ensures "//" + (text + ("\n" + rest)) + tail == "//" + (text + ("\n" + (rest + tail)))
  {
  }

  // ----- The header -----

  /** A header whose code is written declarations has the binding of those, whatever its comments. */
  lemma CommentedHeaderIsBound(
    package: string, s: Style, ds: seq<WrittenDeclaration>, tail: string, c: Commented)
    requires IsStyle(s) && AllWritten(ds) && IsBlank(tail) && IsPackagePath(package)
    requires '\r' !in s.gap && '\r' !in s.pad && '\r' !in tail
    requires IsCommented(c) && CodeOf(c) == HeaderText(s, ds, tail)
    ensures GeneratedFrom(package, CommentedText(c)) == RenderedIn(package, HeadersOf(Meants(ds)))
  {
    CommentsAreRemoved(c);
    HeaderLacks(s, ds, tail, '#');
    HeaderLacks(s, ds, tail, '\r');
    LinesAreKept(HeaderText(s, ds, tail));
    HeaderWithoutBreak(s, ds, tail);
    HeaderIsRead(package, s, ds, LastBreakDropped(tail));
  }
}
