/** The depth-counting scanners of the C header reader. */
module HeaderScanner {
  import opened Wrappers
  import opened Texts

  datatype Brackets = Brackets(open: char, close: char)

  const BRACES := Brackets('{', '}')
  const PARENS := Brackets('(', ')')

  function Delta(b: Brackets, c: char): int {
    if c == b.open then 1 else if c == b.close then -1 else 0
  }

  /** Opening brackets less closing ones. */
  function Depth(b: Brackets, s: string): int {
    if s == "" then 0 else Depth(b, s[..|s| - 1]) + Delta(b, s[|s| - 1])
  }

  predicate NeverNegative(b: Brackets, s: string) {
    forall i :: 0 <= i <= |s| ==> Depth(b, s[..i]) >= 0
  }

  predicate Balanced(b: Brackets, s: string) {
    NeverNegative(b, s) && Depth(b, s) == 0
  }

  lemma {:induction false} DepthConcat(b: Brackets, x: string, y: string)
    ensures Depth(b, x + y) == Depth(b, x) + Depth(b, y)
    decreases |y|
  {
    if y == "" {
      assert x + y == x;
    } else {
      assert (x + y)[..|x + y| - 1] == x + y[..|y| - 1];
      DepthConcat(b, x, y[..|y| - 1]);
    }
  }

  lemma DepthSplit(b: Brackets, s: string, i: nat, j: nat)
    requires i <= j <= |s|
    ensures Depth(b, s[..j]) == Depth(b, s[..i]) + Depth(b, s[i..j])
  {
    assert s[..j] == s[..i] + s[i..j];
    DepthConcat(b, s[..i], s[i..j]);
  }

  lemma DepthNext(b: Brackets, s: string, i: nat)
    requires i < |s|
    ensures Depth(b, s[..i + 1]) == Depth(b, s[..i]) + Delta(b, s[i])
  {
    assert s[..i + 1][..i] == s[..i];
  }

  // ----- Splitting at a delimiter outside brackets -----

  /** The stretches of `s` between delimiters at depth zero, when scanning starts at `depth`. */
  function Raw(b: Brackets, s: string, depth: int, delimiter: char): (r: seq<string>)
    ensures r != []
  {
    if s == "" then [""]
    else if s[0] == delimiter && depth == 0 then [""] + Raw(b, s[1..], depth, delimiter)
    else Prepend([s[0]], Raw(b, s[1..], depth + Delta(b, s[0]), delimiter))
  }

  lemma {:induction false} RawRebuilds(b: Brackets, s: string, depth: int, delimiter: char)
    ensures Join(Raw(b, s, depth, delimiter), [delimiter]) == s
  {
    if s != "" {
      if s[0] == delimiter && depth == 0 {
        var rest := Raw(b, s[1..], depth, delimiter);
        RawRebuilds(b, s[1..], depth, delimiter);
        assert ([""] + rest)[1..] == rest;
        assert [""][0] + [delimiter] + Join(rest, [delimiter]) == s;
      } else {
        RawRebuilds(b, s[1..], depth + Delta(b, s[0]), delimiter);
        JoinPrepend([s[0]], Raw(b, s[1..], depth + Delta(b, s[0]), delimiter), [delimiter]);
      }
    }
  }

  /** No delimiter of `piece` is at depth zero, if scanning it starts at `depth`. */
  ghost predicate Unsplit(b: Brackets, piece: string, depth: int, delimiter: char) {
    forall i :: 0 <= i < |piece| && piece[i] == delimiter ==> depth + Depth(b, piece[..i]) != 0
  }

  lemma DepthFirst(b: Brackets, c: char, s: string)
    ensures Depth(b, [c] + s) == Delta(b, c) + Depth(b, s)
  {
    DepthConcat(b, [c], s);
    assert Depth(b, [c]) == Depth(b, [c][..0]) + Delta(b, c);
  }

  lemma UnsplitPrepend(b: Brackets, c: char, piece: string, depth: int, delimiter: char)
    requires c != delimiter || depth != 0
    requires Unsplit(b, piece, depth + Delta(b, c), delimiter)
    ensures Unsplit(b, [c] + piece, depth, delimiter)
  {
    var all := [c] + piece;
    forall i | 0 <= i < |all| && all[i] == delimiter
      ensures depth + Depth(b, all[..i]) != 0
    {
      if i > 0 {
        assert all[..i] == [c] + piece[..i - 1];
        DepthFirst(b, c, piece[..i - 1]);
      }
    }
  }

  /** The first piece is scanned from the depth it is given, the others from depth zero. */
  lemma {:induction false} RawPieces(b: Brackets, s: string, depth: int, delimiter: char)
    requires Delta(b, delimiter) == 0
    ensures var r := Raw(b, s, depth, delimiter);
      && Unsplit(b, r[0], depth, delimiter)
      && (forall k :: 1 <= k < |r| ==> Unsplit(b, r[k], 0, delimiter))
  {
    if s != "" {
      if s[0] == delimiter && depth == 0 {
        RawPieces(b, s[1..], depth, delimiter);
      } else {
        var rest := Raw(b, s[1..], depth + Delta(b, s[0]), delimiter);
        RawPieces(b, s[1..], depth + Delta(b, s[0]), delimiter);
        UnsplitPrepend(b, s[0], rest[0], depth, delimiter);
      }
    }
  }

  /** All pieces but the last end at depth zero. */
  lemma {:induction false} RawDepths(b: Brackets, s: string, depth: int, delimiter: char)
    requires Delta(b, delimiter) == 0
    ensures var r := Raw(b, s, depth, delimiter);
      && (|r| > 1 ==> depth + Depth(b, r[0]) == 0)
      && (forall k :: 1 <= k < |r| - 1 ==> Depth(b, r[k]) == 0)
  {
    if s != "" {
      if s[0] == delimiter && depth == 0 {
        RawDepths(b, s[1..], depth, delimiter);
      } else {
        var rest := Raw(b, s[1..], depth + Delta(b, s[0]), delimiter);
        RawDepths(b, s[1..], depth + Delta(b, s[0]), delimiter);
        DepthFirst(b, s[0], rest[0]);
      }
    }
  }

  lemma {:induction false} RawUnsplit(b: Brackets, piece: string, tail: string, depth: int, delimiter: char)
    requires Delta(b, delimiter) == 0 && Unsplit(b, piece, depth, delimiter)
    requires depth + Depth(b, piece) == 0
    ensures Raw(b, piece + [delimiter] + tail, depth, delimiter) == [piece] + Raw(b, tail, 0, delimiter)
    decreases |piece|
  {
    var s := piece + [delimiter] + tail;
    if piece == "" {
      assert s[1..] == tail;
    } else {
      assert piece == [piece[0]] + piece[1..] && s[1..] == piece[1..] + [delimiter] + tail;
      DepthFirst(b, piece[0], piece[1..]);
      forall i | 0 <= i < |piece[1..]| && piece[1..][i] == delimiter
        ensures depth + Delta(b, piece[0]) + Depth(b, piece[1..][..i]) != 0
      {
        assert piece[..i + 1] == [piece[0]] + piece[1..][..i];
        DepthFirst(b, piece[0], piece[1..][..i]);
        assert piece[i + 1] == delimiter;
      }
      assert piece[..0] == "";
      RawUnsplit(b, piece[1..], tail, depth + Delta(b, piece[0]), delimiter);
    }
  }

  lemma {:induction false} RawLast(b: Brackets, piece: string, depth: int, delimiter: char)
    requires Delta(b, delimiter) == 0 && Unsplit(b, piece, depth, delimiter)
    ensures Raw(b, piece, depth, delimiter) == [piece]
  {
    if piece != "" {
      assert piece[..0] == "";
      assert piece == [piece[0]] + piece[1..];
      forall i | 0 <= i < |piece[1..]| && piece[1..][i] == delimiter
        ensures depth + Delta(b, piece[0]) + Depth(b, piece[1..][..i]) != 0
      {
        assert piece[..i + 1] == [piece[0]] + piece[1..][..i];
        DepthFirst(b, piece[0], piece[1..][..i]);
        assert piece[i + 1] == delimiter;
      }
      RawLast(b, piece[1..], depth + Delta(b, piece[0]), delimiter);
    }
  }

  /** Pieces that could have come from splitting. */
  ghost predicate Splittable(b: Brackets, pieces: seq<string>, delimiter: char) {
    && pieces != []
    && (forall k :: 0 <= k < |pieces| ==> Unsplit(b, pieces[k], 0, delimiter))
    && (forall k :: 0 <= k < |pieces| - 1 ==> Depth(b, pieces[k]) == 0)
  }

  /** Splitting finds the one way to write a text as such pieces with delimiters between them. */
  lemma {:induction false} RawUndoesJoin(b: Brackets, pieces: seq<string>, delimiter: char)
    requires Delta(b, delimiter) == 0 && Splittable(b, pieces, delimiter)
    ensures Raw(b, Join(pieces, [delimiter]), 0, delimiter) == pieces
  {
    if |pieces| == 1 {
      RawLast(b, pieces[0], 0, delimiter);
    } else {
      RawUndoesJoin(b, pieces[1..], delimiter);
      RawUnsplit(b, pieces[0], Join(pieces[1..], [delimiter]), 0, delimiter);
    }
  }

  lemma RawIsSplittable(b: Brackets, s: string, delimiter: char)
    requires Delta(b, delimiter) == 0
    ensures Splittable(b, Raw(b, s, 0, delimiter), delimiter)
  {
    RawPieces(b, s, 0, delimiter);
    RawDepths(b, s, 0, delimiter);
  }

  // ----- The scan itself -----

  /** Where a scan stands: the pieces cut so far, the piece begun at `start`, and what is still to come. */
  ghost predicate Scanned(
    b: Brackets, source: string, delimiter: char, start: nat, index: nat, depth: int, cut: seq<string>)
  {
    && start <= index <= |source|
    && depth == Depth(b, source[..index])
    && Raw(b, source, 0, delimiter) == cut + Prepend(source[start..index], Raw(b, source[index..], depth, delimiter))
  }

  lemma PrependNothing(pieces: seq<string>)
    requires pieces != []
    ensures Prepend("", pieces) == pieces
  {
    assert "" + pieces[0] == pieces[0];
  }

  lemma ScanBegins(b: Brackets, source: string, delimiter: char)
    ensures Scanned(b, source, delimiter, 0, 0, 0, [])
  {
    var raw := Raw(b, source, 0, delimiter);
    assert source[0..] == source && source[0..0] == "" && source[..0] == "";
    PrependNothing(raw);
  }

  lemma PrependCut(before: string, rest: seq<string>)
    requires rest != []
    ensures Prepend(before, [""] + rest) == [before] + Prepend("", rest)
  {
    assert before + "" == before && "" + rest[0] == rest[0];
  }

  lemma ScanCuts(
    b: Brackets, source: string, delimiter: char, start: nat, index: nat, depth: int, cut: seq<string>)
    requires Delta(b, delimiter) == 0
    requires Scanned(b, source, delimiter, start, index, depth, cut) && index < |source|
    requires source[index] == delimiter && depth == 0
    ensures Scanned(b, source, delimiter, index + 1, index + 1, depth, cut + [source[start..index]])
  {
    var rest := Raw(b, source[index + 1..], 0, delimiter);
    assert source[index..][1..] == source[index + 1..] && source[index..][0] == delimiter;
    DepthNext(b, source, index);
    PrependCut(source[start..index], rest);
    assert source[index + 1..index + 1] == "";
    assert cut + ([source[start..index]] + Prepend("", rest)) == cut + [source[start..index]] + Prepend("", rest);
  }

  lemma PrependMore(before: string, c: char, rest: seq<string>)
    requires rest != []
    ensures Prepend(before, Prepend([c], rest)) == Prepend(before + [c], rest)
  {
    assert before + ([c] + rest[0]) == before + [c] + rest[0];
  }

  lemma ScanAdvances(
    b: Brackets, source: string, delimiter: char, start: nat, index: nat, depth: int, cut: seq<string>)
    requires Scanned(b, source, delimiter, start, index, depth, cut) && index < |source|
    requires !(source[index] == delimiter && depth == 0)
    ensures Scanned(b, source, delimiter, start, index + 1, depth + Delta(b, source[index]), cut)
  {
    var depth' := depth + Delta(b, source[index]);
    assert source[index..][1..] == source[index + 1..] && source[index..][0] == source[index];
    DepthNext(b, source, index);
    PrependMore(source[start..index], source[index], Raw(b, source[index + 1..], depth', delimiter));
    assert source[start..index] + [source[index]] == source[start..index + 1];
  }

  lemma ScanEnds(b: Brackets, source: string, delimiter: char, start: nat, depth: int, cut: seq<string>)
    requires Scanned(b, source, delimiter, start, |source|, depth, cut)
    ensures Raw(b, source, 0, delimiter) == cut + [source[start..]]
  {
    assert source[|source|..] == "";
    assert source[start..|source|] + "" == source[start..];
  }

  /** What `split_top_level` answers where the depth cannot fall below zero. */
  function TopLevel(source: string, delimiter: char): seq<string>
    requires NeverNegative(PARENS, source)
  {
    Trimmed(Raw(PARENS, source, 0, delimiter))
  }

  lemma TrimmedAppend(cut: seq<string>, piece: string)
    ensures Trimmed(cut + [piece]) == Trimmed(cut) + [Trim(piece)]
  {
    var all, trimmed := Trimmed(cut + [piece]), Trimmed(cut) + [Trim(piece)];
    forall i | 0 <= i < |all|
      ensures all[i] == trimmed[i]
    {
      if i < |cut| {
        assert (cut + [piece])[i] == cut[i];
      }
    }
  }

  lemma DepthStaysUp(b: Brackets, source: string, index: nat)
    requires NeverNegative(b, source) && index < |source|
    ensures Depth(b, source[..index]) + Delta(b, source[index]) >= 0
  {
    assert Depth(b, source[..index + 1]) >= 0;
    DepthNext(b, source, index);
  }

  /** `split_top_level`. A depth below zero would wrap around, so the caller must rule it out. */
  method SplitTopLevel(source: string, delimiter: char) returns (items: seq<string>)
    requires NeverNegative(PARENS, source) && Delta(PARENS, delimiter) == 0
    ensures items == TopLevel(source, delimiter)
  {
    items := [];
    var depth: nat, start: nat, index: nat := 0, 0, 0;
    ghost var cut: seq<string> := [];
    ScanBegins(PARENS, source, delimiter);
    while index < |source|
      invariant Scanned(PARENS, source, delimiter, start, index, depth, cut)
      invariant items == Trimmed(cut)
    {
      var ch := source[index];
      DepthStaysUp(PARENS, source, index);
      if ch == delimiter && depth == 0 {
        ScanCuts(PARENS, source, delimiter, start, index, depth, cut);
        TrimmedAppend(cut, source[start..index]);
        items := items + [Trim(source[start..index])];
        cut := cut + [source[start..index]];
        start := index + 1;
      } else {
        ScanAdvances(PARENS, source, delimiter, start, index, depth, cut);
        if ch == '(' {
          depth := depth + 1;
        } else if ch == ')' {
          depth := depth - 1;
        }
      }
      index := index + 1;
    }
    ScanEnds(PARENS, source, delimiter, start, depth, cut);
    TrimmedAppend(cut, source[start..]);
    items := items + [Trim(source[start..])];
  }

  // ----- Statements -----

  datatype ScanError = UnmatchedBrace | UnterminatedStruct | MissingSemicolon

  /** What `split_c_statements` answers. */
  function Statements(source: string): Result<seq<string>, ScanError> {
    var raw := Raw(BRACES, source, 0, ';');
    if !NeverNegative(BRACES, source) then Err(UnmatchedBrace)
    else if Depth(BRACES, source) != 0 then Err(UnterminatedStruct)
    else if Trim(raw[|raw| - 1]) != "" then Err(MissingSemicolon)
    else Ok(Trimmed(raw[..|raw| - 1]))
  }

  ghost predicate NotBelowZero(b: Brackets, source: string, index: nat)
    requires index <= |source|
  {
    forall i :: 0 <= i <= index ==> Depth(b, source[..i]) >= 0
  }

  lemma NotBelowNext(b: Brackets, source: string, index: nat, depth: int)
    requires index < |source| && NotBelowZero(b, source, index)
    requires depth == Depth(b, source[..index]) && depth + Delta(b, source[index]) >= 0
    ensures NotBelowZero(b, source, index + 1)
  {
    DepthNext(b, source, index);
  }

  lemma BelowZero(source: string, index: nat)
    requires index < |source| && source[index] == '}' && Depth(BRACES, source[..index]) == 0
    ensures Statements(source) == Err(UnmatchedBrace)
  {
    DepthNext(BRACES, source, index);
  }

  lemma StatementsEnd(source: string, start: nat, depth: nat, cut: seq<string>)
    requires NotBelowZero(BRACES, source, |source|)
    requires Scanned(BRACES, source, ';', start, |source|, depth, cut)
    ensures Statements(source)
      == if depth != 0 then Err(UnterminatedStruct)
         else if Trim(source[start..]) != "" then Err(MissingSemicolon)
         else Ok(Trimmed(cut))
  {
    assert source[..|source|] == source;
    ScanEnds(BRACES, source, ';', start, depth, cut);
    assert (cut + [source[start..]])[..|cut|] == cut;
  }

  /** `split_c_statements`. */
  method SplitCStatements(source: string) returns (result: Result<seq<string>, ScanError>)
    ensures result == Statements(source)
  {
    var statements: seq<string> := [];
    var depth: nat, start: nat, index: nat := 0, 0, 0;
    ghost var cut: seq<string> := [];
    ScanBegins(BRACES, source, ';');
    while index < |source|
      invariant Scanned(BRACES, source, ';', start, index, depth, cut)
      invariant statements == Trimmed(cut)
      invariant NotBelowZero(BRACES, source, index)
    {
      var ch := source[index];
      if ch == '}' && depth == 0 {
        BelowZero(source, index);
        return Err(UnmatchedBrace);
      }
      NotBelowNext(BRACES, source, index, depth);
      if ch == ';' && depth == 0 {
        ScanCuts(BRACES, source, ';', start, index, depth, cut);
        TrimmedAppend(cut, source[start..index]);
        statements := statements + [Trim(source[start..index])];
        cut := cut + [source[start..index]];
        start := index + 1;
      } else {
        ScanAdvances(BRACES, source, ';', start, index, depth, cut);
        if ch == '{' {
          depth := depth + 1;
        } else if ch == '}' {
          depth := depth - 1;
        }
      }
      index := index + 1;
    }
    StatementsEnd(source, start, depth, cut);
    if depth != 0 {
      return Err(UnterminatedStruct);
    }
    if Trim(source[start..]) != "" {
      return Err(MissingSemicolon);
    }
    result := Ok(statements);
  }

  /** The header splits exactly if it is a list of brace-balanced declarations, each ended by a semicolon, with
      nothing but white space after the last; and then it splits into just those. */
  lemma StatementsRebuild(source: string)
    requires Statements(source).Ok?
    ensures var raw := Raw(BRACES, source, 0, ';');
      && |raw| == |Statements(source).value| + 1
      && Join(raw, [';']) == source
      && Splittable(BRACES, raw, ';') && Depth(BRACES, raw[|raw| - 1]) == 0
      && Trim(raw[|raw| - 1]) == ""
      && forall k :: 0 <= k < |raw| - 1 ==> Statements(source).value[k] == Trim(raw[k])
  {
    RawRebuilds(BRACES, source, 0, ';');
    RawIsSplittable(BRACES, source, ';');
    var raw := Raw(BRACES, source, 0, ';');
    JoinDepth(BRACES, raw, ';');
  }

  lemma {:induction false} JoinDepth(b: Brackets, pieces: seq<string>, delimiter: char)
    requires Delta(b, delimiter) == 0 && Splittable(b, pieces, delimiter)
    ensures Depth(b, Join(pieces, [delimiter])) == Depth(b, pieces[|pieces| - 1])
  {
    if |pieces| > 1 {
      var rest := Join(pieces[1..], [delimiter]);
      JoinDepth(b, pieces[1..], delimiter);
      DepthConcat(b, pieces[0] + [delimiter], rest);
      DepthConcat(b, pieces[0], [delimiter]);
      DepthFirst(b, delimiter, "");
      assert [delimiter] + "" == [delimiter];
    }
  }

  /** Conversely, whatever declarations are written one after another are read back. */
  lemma StatementsUndoJoin(pieces: seq<string>)
    requires Splittable(BRACES, pieces, ';')
    requires forall k :: 0 <= k < |pieces| ==> NeverNegative(BRACES, pieces[k])
    requires Trim(pieces[|pieces| - 1]) == "" && Depth(BRACES, pieces[|pieces| - 1]) == 0
    ensures Statements(Join(pieces, [';'])) == Ok(Trimmed(pieces[..|pieces| - 1]))
  {
    RawUndoesJoin(BRACES, pieces, ';');
    JoinDepth(BRACES, pieces, ';');
    JoinNeverNegative(BRACES, pieces, ';');
  }

  lemma {:induction false} JoinNeverNegative(b: Brackets, pieces: seq<string>, delimiter: char)
    requires Delta(b, delimiter) == 0 && Splittable(b, pieces, delimiter)
    requires forall k :: 0 <= k < |pieces| ==> NeverNegative(b, pieces[k])
    ensures NeverNegative(b, Join(pieces, [delimiter]))
  {
    if |pieces| > 1 {
      var first, rest := pieces[0] + [delimiter], Join(pieces[1..], [delimiter]);
      JoinNeverNegative(b, pieces[1..], delimiter);
      DepthNext(b, first, |pieces[0]|);
      assert first[..|pieces[0]|] == pieces[0] && first[..|first|] == first;
      assert Depth(b, first) == 0;
      forall i | 0 <= i <= |first + rest|
        ensures Depth(b, (first + rest)[..i]) >= 0
      {
        if i <= |pieces[0]| {
          assert (first + rest)[..i] == pieces[0][..i];
        } else {
          assert (first + rest)[..i] == first + rest[..i - |first|];
          DepthConcat(b, first, rest[..i - |first|]);
        }
      }
    }
  }

  lemma {:induction false} RawNeverNegative(b: Brackets, s: string, delimiter: char, k: nat)
    requires Delta(b, delimiter) == 0 && NeverNegative(b, s) && k < |Raw(b, s, 0, delimiter)|
    ensures NeverNegative(b, Raw(b, s, 0, delimiter)[k])
  {
    var raw := Raw(b, s, 0, delimiter);
    RawRebuilds(b, s, 0, delimiter);
    RawIsSplittable(b, s, delimiter);
    PieceNeverNegative(b, raw, delimiter, k);
  }

  lemma {:induction false} PieceNeverNegative(b: Brackets, pieces: seq<string>, delimiter: char, k: nat)
    requires Delta(b, delimiter) == 0 && Splittable(b, pieces, delimiter) && k < |pieces|
    requires NeverNegative(b, Join(pieces, [delimiter]))
    ensures NeverNegative(b, pieces[k])
    decreases k
  {
    var s := Join(pieces, [delimiter]);
    if k == 0 {
      forall i | 0 <= i <= |pieces[0]|
        ensures Depth(b, pieces[0][..i]) >= 0
      {
        assert s[..i] == pieces[0][..i];
      }
    } else {
      var first, rest := pieces[0] + [delimiter], Join(pieces[1..], [delimiter]);
      DepthNext(b, first, |pieces[0]|);
      assert first[..|pieces[0]|] == pieces[0] && first[..|first|] == first;
      forall i | 0 <= i <= |rest|
        ensures Depth(b, rest[..i]) >= 0
      {
        assert s[..|first| + i] == first + rest[..i];
        DepthConcat(b, first, rest[..i]);
      }
      PieceNeverNegative(b, pieces[1..], delimiter, k - 1);
    }
  }

  // ----- Parentheses -----

  /** `close` is where the bracket opened at `open` is closed: the first place the depth is back where it was. */
  ghost predicate Closes(s: string, open: nat, close: nat) {
    && open < close < |s| && s[open] == '(' && s[close] == ')'
    && Depth(PARENS, s[open..close + 1]) == 0
    && forall k :: open < k <= close ==> Depth(PARENS, s[open..k]) > 0
  }

  function CloseFrom(s: string, index: nat, depth: nat): (r: Option<nat>)
    requires index <= |s|
    ensures r.Some? ==> index <= r.value < |s| && s[r.value] == ')'
    decreases |s| - index
  {
    if index == |s| then None
    else if s[index] == '(' then CloseFrom(s, index + 1, depth + 1)
    else if s[index] == ')' then if depth <= 1 then Some(index) else CloseFrom(s, index + 1, depth - 1)
    else CloseFrom(s, index + 1, depth)
  }

  /** What `matching_paren` answers for a parenthesis at `open`. */
  function MatchingParen(s: string, open: nat): (r: Option<nat>)
    requires open < |s| && s[open] == '('
    ensures r.Some? ==> open < r.value < |s| && s[r.value] == ')'
  {
    CloseFrom(s, open + 1, 1)
  }

  lemma {:induction false} CloseFromCloses(s: string, open: nat, index: nat, depth: nat)
    requires open < index <= |s| && s[open] == '('
    requires depth == Depth(PARENS, s[open..index]) && depth > 0
    requires forall k :: open < k <= index ==> Depth(PARENS, s[open..k]) > 0
    ensures var r := CloseFrom(s, index, depth);
      && (r.Some? ==> Closes(s, open, r.value))
      && (r.None? ==> forall k :: open < k <= |s| ==> Depth(PARENS, s[open..k]) > 0)
    decreases |s| - index
  {
    if index < |s| {
      assert s[open..index + 1][..index - open] == s[open..index];
      var c := s[index];
      if c == ')' && depth == 1 {
        assert Depth(PARENS, s[open..index + 1]) == 0;
      } else {
        CloseFromCloses(s, open, index + 1, depth + Delta(PARENS, c));
      }
    }
  }

  /** The match found is the least balanced close, and none is found only if there is none. */
  lemma MatchingParenCloses(s: string, open: nat)
    requires open < |s| && s[open] == '('
    ensures var r := MatchingParen(s, open);
      && (r.Some? <==> exists close :: Closes(s, open, close))
      && (r.Some? ==> forall close :: Closes(s, open, close) <==> close == r.value)
  {
    assert s[open..open + 1] == "" + "(";
    assert Depth(PARENS, s[open..open + 1]) == Depth(PARENS, s[open..open + 1][..0]) + 1;
    CloseFromCloses(s, open, open + 1, 1);
    var r := MatchingParen(s, open);
    if r.Some? {
      forall close | Closes(s, open, close)
        ensures close == r.value
      {
      }
    }
  }

  /** `matching_paren`. Its depth never goes below zero. */
  method FindMatchingParen(source: string, open: nat) returns (r: Option<nat>)
    requires open < |source| && source[open] == '('
    ensures r == MatchingParen(source, open)
  {
    var depth: nat := 0;
    var index := open;
    while index < |source|
      invariant open <= index <= |source|
      invariant index == open ==> depth == 0
      invariant index > open ==> depth > 0 && MatchingParen(source, open) == CloseFrom(source, index, depth)
    {
      if source[index] == '(' {
        depth := depth + 1;
      } else if source[index] == ')' {
        depth := depth - 1;
        if depth == 0 {
          return Some(index);
        }
      }
      index := index + 1;
    }
    r := None;
  }

  /** Between a parenthesis and its match the depth never falls below zero and ends at zero, which is what
      `split_top_level` relies on. */
  lemma InteriorIsBalanced(s: string, open: nat, close: nat)
    requires Closes(s, open, close)
    ensures Balanced(PARENS, s[open + 1..close])
  {
    var inside := s[open + 1..close];
    forall i | 0 <= i <= |inside|
      ensures Depth(PARENS, inside[..i]) == Depth(PARENS, s[open..open + 1 + i]) - 1
    {
      assert s[open..open + 1 + i] == ['('] + inside[..i];
      DepthFirst(PARENS, '(', inside[..i]);
    }
    assert inside[..|inside|] == inside;
    assert s[open..close + 1][..close - open] == s[open..close];
    assert open + 1 + |inside| == close;
  }
}
