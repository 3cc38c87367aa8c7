/** Paths inside a prepared bundle are stored with its root replaced by a token, and put back on loading. */
module BundlePaths {
  import opened Texts

  const TOKEN := "${BUNDLE}"

  /** Left-to-right replacement of every non-overlapping occurrence. */
  function Replace(s: string, target: string, replacement: string): string
    requires |target| > 0
  {
    if |s| < |target| then s
    else if s[..|target|] == target then replacement + Replace(s[|target|..], target, replacement)
    else [s[0]] + Replace(s[1..], target, replacement)
  }

  /** What is left of `s` between the occurrences that `Replace` replaces. */
  function Pieces(s: string, target: string): (r: seq<string>)
    requires |target| > 0
    ensures r != []
  {
    if |s| < |target| then [s]
    else if s[..|target|] == target then [""] + Pieces(s[|target|..], target)
    else
      var rest := Pieces(s[1..], target);
      Prepend([s[0]], rest)
  }

  /** Replacing is splitting and joining with something else. */
  lemma {:induction false} ReplaceJoinsPieces(s: string, target: string, replacement: string)
    requires |target| > 0
    ensures Replace(s, target, replacement) == Join(Pieces(s, target), replacement)
  {
    if |s| >= |target| {
      if s[..|target|] == target {
        ReplaceJoinsPieces(s[|target|..], target, replacement);
        var rest := Pieces(s[|target|..], target);
        assert ([""] + rest)[1..] == rest;
      } else {
        ReplaceJoinsPieces(s[1..], target, replacement);
        JoinPrepend([s[0]], Pieces(s[1..], target), replacement);
      }
    }
  }

  lemma {:induction false} ReplaceBySelf(s: string, target: string)
    requires |target| > 0
    ensures Replace(s, target, target) == s
  {
    if |s| >= |target| {
      if s[..|target|] == target {
        ReplaceBySelf(s[|target|..], target);
      } else {
        ReplaceBySelf(s[1..], target);
      }
    }
  }

  lemma PiecesRebuild(s: string, target: string)
    requires |target| > 0
    ensures Join(Pieces(s, target), target) == s
  {
    ReplaceJoinsPieces(s, target, target);
    ReplaceBySelf(s, target);
  }

  lemma {:induction false} PiecesAreParts(s: string, target: string, part: string)
    requires |target| > 0
    ensures Pieces(s, target)[0] <= s
    ensures forall p :: p in Pieces(s, target) && Contains(p, part) ==> Contains(s, part)
  {
    if |s| >= |target| {
      if s[..|target|] == target {
        PiecesAreParts(s[|target|..], target, part);
        if Contains(s[|target|..], part) {
          ContainsLater(s, |target|, part);
        } else if Contains("", part) {
          assert part <= ""[0..];
          assert part <= s[0..];
        }
      } else {
        PiecesAreParts(s[1..], target, part);
        if Contains(s[1..], part) {
          ContainsLater(s, 1, part);
        }
        var first := [s[0]] + Pieces(s[1..], target)[0];
        if Contains(first, part) {
          ContainsLonger(s, first, part);
        }
      }
    }
  }

  // ----- The token does not overlap itself -----

  lemma TokenStartsOnce(k: nat)
    requires 0 < k < |TOKEN|
    ensures TOKEN[k] != TOKEN[0]
  {
  }

  lemma TokenStaysInside(before: string, after: string)
    requires before != [] && !(TOKEN <= before)
    ensures !(TOKEN <= before + TOKEN + after)
  {
    var s := before + TOKEN + after;
    if |before| < |TOKEN| {
      TokenStartsOnce(|before|);
      assert s[|before|] == TOKEN[0];
    } else {
      assert before[..|TOKEN|] == s[..|TOKEN|];
    }
  }

  /** What stands before an inserted token shifts by one character at a time. */
  lemma AcrossSteps(before: string, after: string, root: string)
    requires before != [] && !(TOKEN <= before)
    ensures Replace(before + TOKEN + after, TOKEN, root)
      == [before[0]] + Replace(before[1..] + TOKEN + after, TOKEN, root)
  {
    var s := before + TOKEN + after;
    TokenStaysInside(before, after);
    assert s[1..] == before[1..] + TOKEN + after && s[0] == before[0];
    ReplaceSkips(s, root);
  }

  lemma ReplaceTakes(s: string, rest: string, root: string)
    requires s == TOKEN + rest
    ensures Replace(s, TOKEN, root) == root + Replace(rest, TOKEN, root)
  {
    assert s[..|TOKEN|] == TOKEN && s[|TOKEN|..] == rest;
  }

  lemma AcrossTakes(before: string, after: string)
    requires TOKEN <= before
    ensures before == TOKEN + before[|TOKEN|..]
    ensures before + TOKEN + after == TOKEN + (before[|TOKEN|..] + TOKEN + after)
  {
    assert before == before[..|TOKEN|] + before[|TOKEN|..];
  }

  lemma Regroup(a: string, b: string, c: string, d: string)
    ensures a + (b + c + d) == (a + b) + c + d
  {
  }

  /** An inserted token is found again, whatever stands around it. */
  lemma {:induction false} ReplaceAcross(before: string, after: string, root: string)
    ensures Replace(before + TOKEN + after, TOKEN, root)
         == Replace(before, TOKEN, root) + root + Replace(after, TOKEN, root)
    decreases |before|
  {
    if before == [] {
      ReplaceTakes(before + TOKEN + after, after, root);
    } else if TOKEN <= before {
      var rest := before[|TOKEN|..];
      AcrossTakes(before, after);
      ReplaceTakes(before, rest, root);
      ReplaceTakes(before + TOKEN + after, rest + TOKEN + after, root);
      ReplaceAcross(rest, after, root);
      Regroup(root, Replace(rest, TOKEN, root), root, Replace(after, TOKEN, root));
    } else {
      AcrossSteps(before, after, root);
      ReplaceAcross(before[1..], after, root);
      ReplaceSkips(before, root);
      Regroup([before[0]], Replace(before[1..], TOKEN, root), root, Replace(after, TOKEN, root));
    }
  }

  lemma ReplaceSkips(s: string, root: string)
    requires s != [] && !(TOKEN <= s)
    ensures Replace(s, TOKEN, root) == [s[0]] + Replace(s[1..], TOKEN, root)
  {
    if |s| >= |TOKEN| {
      assert s[..|TOKEN|] != TOKEN;
    } else {
      assert s == [s[0]] + s[1..];
    }
  }

  function Detokenized(pieces: seq<string>, root: string): (r: seq<string>)
    ensures |r| == |pieces| && forall i :: 0 <= i < |r| ==> r[i] == Replace(pieces[i], TOKEN, root)
  {
    seq(|pieces|, i requires 0 <= i < |pieces| => Replace(pieces[i], TOKEN, root))
  }

  /** Putting the root back acts on each piece by itself. */
  lemma {:induction false} DetokenizeJoin(pieces: seq<string>, root: string)
    requires pieces != []
    ensures Replace(Join(pieces, TOKEN), TOKEN, root) == Join(Detokenized(pieces, root), root)
  {
    if |pieces| > 1 {
      DetokenizeJoin(pieces[1..], root);
      ReplaceAcross(pieces[0], Join(pieces[1..], TOKEN), root);
      assert Detokenized(pieces, root)[1..] == Detokenized(pieces[1..], root);
    }
  }

  // ----- Which strings survive -----

  lemma ContainsFromFirst(s: string, part: string)
    requires |s| > 0
    ensures Contains(s, part) <==> part <= s || Contains(s[1..], part)
  {
    assert s[0..] == s;
    if Contains(s, part) && !(part <= s) {
      var i :| 0 <= i <= |s| && part <= s[i..];
      assert s[1..][i - 1..] == s[i..];
    }
    if Contains(s[1..], part) {
      ContainsLater(s, 1, part);
    }
  }

  /** Replacing the token changes a string in length as the root differs from the token in length. */
  lemma {:induction false} TokensShow(s: string, root: string)
    ensures !Contains(s, TOKEN) ==> Replace(s, TOKEN, root) == s
    ensures |root| <= |TOKEN| ==> |Replace(s, TOKEN, root)| <= |s|
    ensures |root| >= |TOKEN| ==> |Replace(s, TOKEN, root)| >= |s|
    ensures Contains(s, TOKEN) && |root| != |TOKEN| ==> |Replace(s, TOKEN, root)| != |s|
    ensures Contains(s, TOKEN) && root != TOKEN ==> Replace(s, TOKEN, root) != s
  {
    if |s| < |TOKEN| {
      assert forall i {:trigger s[i..]} :: 0 <= i <= |s| ==> |s[i..]| < |TOKEN|;
    } else if s[..|TOKEN|] == TOKEN {
      TokensShow(s[|TOKEN|..], root);
      assert s[0..] == s;
      assert TOKEN <= s[0..];
      if root != TOKEN && |root| == |TOKEN| {
        assert (root + Replace(s[|TOKEN|..], TOKEN, root))[..|root|] == root;
      }
    } else {
      TokensShow(s[1..], root);
      ContainsFromFirst(s, TOKEN);
    }
  }

  /** The pieces of `s` contain no token of their own. */
  ghost predicate Legible(s: string, root: string)
    requires |root| > 0
  {
    forall p :: p in Pieces(s, root) ==> !Contains(p, TOKEN)
  }

  ghost predicate PiecesShow(pieces: seq<string>, root: string) {
    exists i :: 0 <= i < |pieces| && Contains(pieces[i], TOKEN)
  }

  lemma {:induction false} JoinedTokensShow(pieces: seq<string>, root: string)
    requires pieces != []
    ensures var a, b := Join(Detokenized(pieces, root), root), Join(pieces, root);
      && (!PiecesShow(pieces, root) ==> a == b)
      && (|root| <= |TOKEN| ==> |a| <= |b|)
      && (|root| >= |TOKEN| ==> |a| >= |b|)
      && (PiecesShow(pieces, root) && |root| != |TOKEN| ==> |a| != |b|)
      && (PiecesShow(pieces, root) && root != TOKEN ==> a != b)
  {
    TokensShow(pieces[0], root);
    if |pieces| > 1 {
      var d := Detokenized(pieces, root);
      JoinedTokensShow(pieces[1..], root);
      assert d[1..] == Detokenized(pieces[1..], root);
      assert PiecesShow(pieces, root) <==> Contains(pieces[0], TOKEN) || PiecesShow(pieces[1..], root) by {
        if PiecesShow(pieces[1..], root) {
          var i :| 0 <= i < |pieces[1..]| && Contains(pieces[1..][i], TOKEN);
          assert Contains(pieces[i + 1], TOKEN);
        }
        if PiecesShow(pieces, root) && !Contains(pieces[0], TOKEN) {
          var i :| 0 <= i < |pieces| && Contains(pieces[i], TOKEN);
          assert Contains(pieces[1..][i - 1], TOKEN);
        }
      }
      if |root| == |TOKEN| {
        TokensShowNot(pieces[0], root);
        var x, y := d[0] + root + Join(d[1..], root), pieces[0] + root + Join(pieces[1..], root);
        if x == y {
          assert d[0] == x[..|d[0]|] && pieces[0] == y[..|pieces[0]|];
          assert Join(d[1..], root) == x[|d[0]| + |root|..] && Join(pieces[1..], root) == y[|pieces[0]| + |root|..];
        }
      }
    }
  }

  lemma TokensShowNot(s: string, root: string)
    requires |root| == |TOKEN|
    ensures |Replace(s, TOKEN, root)| == |s|
  {
    TokensShow(s, root);
  }

  function Tokenize(s: string, root: string): string
    requires |root| > 0
  {
    Replace(s, root, TOKEN)
  }

  function Detokenize(s: string, root: string): string {
    Replace(s, TOKEN, root)
  }

  /** Tokenising is undone exactly on the strings that do not already hold the token between the roots. */
  lemma DetokenizeUndoesTokenizeIff(s: string, root: string)
    requires |root| > 0 && root != TOKEN
    ensures Detokenize(Tokenize(s, root), root) == s <==> Legible(s, root)
  {
    var pieces := Pieces(s, root);
    ReplaceJoinsPieces(s, root, TOKEN);
    DetokenizeJoin(pieces, root);
    PiecesRebuild(s, root);
    JoinedTokensShow(pieces, root);
  }

  /** In particular on every string without the token. */
  lemma TokenlessIsLegible(s: string, root: string)
    requires |root| > 0 && !Contains(s, TOKEN)
    ensures Legible(s, root)
  {
    PiecesAreParts(s, root, TOKEN);
  }

  // ----- Roots that move -----

  /** What is read under the new root tokenises to what was stored. */
  predicate Settles(s: string, root: string, root': string)
    requires |root| > 0 && |root'| > 0
  {
    Tokenize(Detokenize(Tokenize(s, root), root'), root') == Tokenize(s, root)
  }

  /** What is read under the new root is what was written under the old one. */
  predicate Stays(s: string, root: string, root': string)
    requires |root| > 0
  {
    Detokenize(Tokenize(s, root), root') == s
  }

  lemma {:induction false} OnePieceIff(s: string, root: string)
    requires |root| > 0
    ensures |Pieces(s, root)| == 1 <==> !Contains(s, root)
  {
    if |s| < |root| {
      assert forall i {:trigger s[i..]} :: 0 <= i <= |s| ==> |s[i..]| < |root|;
    } else if s[..|root|] == root {
      assert root <= s[0..];
    } else {
      OnePieceIff(s[1..], root);
      ContainsFromFirst(s, root);
    }
  }

  lemma {:induction false} JoinLengths(pieces: seq<string>, one: string, other: string)
    requires |one| <= |other|
    ensures |Join(pieces, one)| <= |Join(pieces, other)|
    ensures |one| < |other| && |pieces| > 1 ==> |Join(pieces, one)| < |Join(pieces, other)|
  {
    if |pieces| > 1 {
      JoinLengths(pieces[1..], one, other);
    }
  }

  lemma JoinsAgree(pieces: seq<string>, one: string, other: string)
    requires |pieces| > 1 && Join(pieces, one) == Join(pieces, other)
    ensures one == other
  {
    if |one| < |other| {
      JoinLengths(pieces, one, other);
    } else if |one| > |other| {
      JoinLengths(pieces, other, one);
    } else {
      var s, t, n := Join(pieces, one), Join(pieces, other), |pieces[0]|;
      assert one == s[n..n + |one|] && other == t[n..n + |other|];
    }
  }

  /** A string that survives tokenising is left alone by a move to another root exactly if the old root is not in
      it. */
  lemma StaysIff(s: string, root: string, root': string)
    requires |root| > 0 && Legible(s, root) && root != root'
    ensures Stays(s, root, root') <==> !Contains(s, root)
  {
    var pieces := Pieces(s, root);
    ReplaceJoinsPieces(s, root, TOKEN);
    DetokenizeJoin(pieces, root');
    LegiblePiecesStay(pieces, root');
    PiecesRebuild(s, root);
    OnePieceIff(s, root);
    if |pieces| > 1 && Stays(s, root, root') {
      JoinsAgree(pieces, root, root');
    }
  }

  lemma LegiblePiecesStay(pieces: seq<string>, root: string)
    requires forall p :: p in pieces ==> !Contains(p, TOKEN)
    ensures Detokenized(pieces, root) == pieces
  {
    forall i | 0 <= i < |pieces|
      ensures Detokenized(pieces, root)[i] == pieces[i]
    {
      TokensShow(pieces[i], root);
    }
  }
}
