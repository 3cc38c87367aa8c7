/** Removing comments from a C header. Block comments nest, unlike in C. */
module HeaderComments {
  import opened Wrappers

  function Prefixed(before: string, rest: Option<string>): Option<string> {
    if rest.Some? then Some(before + rest.value) else None
  }

  /** What is left of a line once a line comment has begun: its end. */
  function LineEnd(s: string): string {
    if s == "" || s[0] == '\n' then s else LineEnd(s[1..])
  }

  predicate Opens(s: string) {
    |s| >= 2 && s[0] == '/' && s[1] == '*'
  }

  predicate Closes(s: string) {
    |s| >= 2 && s[0] == '*' && s[1] == '/'
  }

  predicate OpensLine(s: string) {
    |s| >= 2 && s[0] == '/' && s[1] == '/'
  }

  /** The text outside comments, inside `depth` of them to begin with; none if a block comment is not closed. */
  function Stripped(s: string, depth: nat): Option<string>
    decreases |s|
  {
    if s == "" then if depth == 0 then Some("") else None
    else if Opens(s) then Stripped(s[2..], depth + 1)
    else if depth > 0 then
      if Closes(s) then Stripped(s[2..], depth - 1)
      else Prefixed(if s[0] == '\n' then "\n" else "", Stripped(s[1..], depth))
    else if OpensLine(s) then
      LineEndIsShorter(s);
      Stripped(LineEnd(s), depth)
    else Prefixed([s[0]], Stripped(s[1..], depth))
  }

  lemma {:induction false} LineEndIsShorter(s: string)
    ensures |LineEnd(s)| <= |s|
    ensures s != "" && s[0] != '\n' ==> |LineEnd(s)| < |s|
    ensures LineEnd(s) == s[|s| - |LineEnd(s)|..]
  {
    if s != "" && s[0] != '\n' {
      LineEndIsShorter(s[1..]);
    }
  }

  function Lines(s: string): nat {
    if s == "" then 0 else (if s[0] == '\n' then 1 else 0) + Lines(s[1..])
  }

  lemma {:induction false} LineEndKeepsLines(s: string)
    ensures Lines(LineEnd(s)) == Lines(s)
  {
    if s != "" && s[0] != '\n' {
      LineEndKeepsLines(s[1..]);
    }
  }

  lemma LinesPrefixed(c: char, s: string)
    ensures Lines([c] + s) == (if c == '\n' then 1 else 0) + Lines(s)
  {
    assert ([c] + s)[1..] == s;
  }

  /** Line numbers survive. */
  lemma {:induction false} StrippingKeepsLines(s: string, depth: nat)
    ensures Stripped(s, depth).Some? ==> Lines(Stripped(s, depth).value) == Lines(s)
    decreases |s|
  {
    if s != "" {
      if Opens(s) {
        StrippingKeepsLines(s[2..], depth + 1);
        assert s[1..][1..] == s[2..];
      } else if depth > 0 {
        if Closes(s) {
          StrippingKeepsLines(s[2..], depth - 1);
          assert s[1..][1..] == s[2..];
        } else {
          StrippingKeepsLines(s[1..], depth);
          var rest := Stripped(s[1..], depth);
          if rest.Some? && s[0] == '\n' {
            LinesPrefixed('\n', rest.value);
            assert "\n" == ['\n'];
          } else if rest.Some? {
            assert "" + rest.value == rest.value;
          }
        }
      } else if OpensLine(s) {
        LineEndIsShorter(s);
        LineEndKeepsLines(s);
        StrippingKeepsLines(LineEnd(s), depth);
      } else {
        StrippingKeepsLines(s[1..], depth);
        if Stripped(s[1..], depth).Some? {
          LinesPrefixed(s[0], Stripped(s[1..], depth).value);
        }
      }
    }
  }

  /** No comment begins anywhere. */
  ghost predicate NoOpener(s: string) {
    forall i :: 0 <= i < |s| - 1 ==> s[i] == '/' ==> s[i + 1] != '/' && s[i + 1] != '*'
  }

  lemma NoOpenerPrefixed(c: char, s: string)
    requires NoOpener(s) && (c == '/' && s != "" ==> s[0] != '/' && s[0] != '*')
    ensures NoOpener([c] + s)
  {
    forall i | 0 <= i < |[c] + s| - 1 && ([c] + s)[i] == '/'
      ensures ([c] + s)[i + 1] != '/' && ([c] + s)[i + 1] != '*'
    {
      assert ([c] + s)[i + 1] == s[i];
    }
  }

  lemma FirstStaysFirst(s: string)
    requires s != "" && s[0] != '/' && Stripped(s, 0).Some?
    ensures Stripped(s, 0).value != "" && Stripped(s, 0).value[0] == s[0]
  {
  }

  lemma {:induction false} NothingLeftToStrip(s: string, depth: nat)
    ensures Stripped(s, depth).Some? ==> NoOpener(Stripped(s, depth).value)
    decreases |s|
  {
    if s != "" {
      if Opens(s) {
        NothingLeftToStrip(s[2..], depth + 1);
      } else if depth > 0 {
        if Closes(s) {
          NothingLeftToStrip(s[2..], depth - 1);
        } else {
          NothingLeftToStrip(s[1..], depth);
          var rest := Stripped(s[1..], depth);
          if rest.Some? && s[0] == '\n' {
            NoOpenerPrefixed('\n', rest.value);
            assert "\n" == ['\n'];
          } else if rest.Some? {
            assert "" + rest.value == rest.value;
          }
        }
      } else if OpensLine(s) {
        LineEndIsShorter(s);
        NothingLeftToStrip(LineEnd(s), depth);
      } else {
        NothingLeftToStrip(s[1..], depth);
        var rest := Stripped(s[1..], depth);
        if rest.Some? {
          if s[0] == '/' && |s| > 1 {
            FirstStaysFirst(s[1..]);
          }
          NoOpenerPrefixed(s[0], rest.value);
        }
      }
    }
  }

  lemma {:induction false} CleanIsKept(s: string)
    requires NoOpener(s)
    ensures Stripped(s, 0) == Some(s)
  {
    if s != "" {
      forall i | 0 <= i < |s[1..]| - 1 && s[1..][i] == '/'
        ensures s[1..][i + 1] != '/' && s[1..][i + 1] != '*'
      {
        assert s[i + 1] == '/';
      }
      CleanIsKept(s[1..]);
      assert !Opens(s) && !OpensLine(s);
      assert [s[0]] + s[1..] == s;
    }
  }

  lemma PrefixedTwice(before: string, c: string, rest: Option<string>)
    ensures Prefixed(before, Prefixed(c, rest)) == Prefixed(before + c, rest)
  {
    if rest.Some? {
      assert before + (c + rest.value) == before + c + rest.value;
    }
  }

  lemma PrefixedByNothing(rest: Option<string>)
    ensures Prefixed("", rest) == rest
  {
    if rest.Some? {
      assert "" + rest.value == rest.value;
    }
  }

  /** The scan has written `out`, stands at `index`, and is inside `depth` comments. */
  ghost predicate Midway(header: string, out: string, index: nat, depth: nat) {
    index <= |header| && Prefixed(out, Stripped(header[index..], depth)) == Stripped(header, 0)
  }

  lemma MidwayWrites(header: string, out: string, index: nat, depth: nat, written: string, next: nat, depth': nat)
    requires Midway(header, out, index, depth) && index <= next <= |header|
    requires Stripped(header[index..], depth) == Prefixed(written, Stripped(header[next..], depth'))
    ensures Midway(header, out + written, next, depth')
  {
    PrefixedTwice(out, written, Stripped(header[next..], depth'));
  }

  lemma MidwaySkips(header: string, out: string, index: nat, depth: nat, next: nat, depth': nat)
    requires Midway(header, out, index, depth) && index <= next <= |header|
    requires Stripped(header[index..], depth) == Stripped(header[next..], depth')
    ensures Midway(header, out, next, depth')
  {
  }

  /** The index of the end of the line that holds `from`. */
  method SkipLine(header: string, from: nat) returns (index: nat)
    requires from <= |header|
    ensures from <= index <= |header| && header[index..] == LineEnd(header[from..])
  {
    index := from;
    while index < |header| && header[index] != '\n'
      invariant from <= index <= |header| && LineEnd(header[index..]) == LineEnd(header[from..])
    {
      assert header[index..][1..] == header[index + 1..];
      index := index + 1;
    }
  }

  /** The comment scan of `strip_comments_and_directives`. */
  method StripComments(header: string) returns (result: Option<string>)
    ensures result == Stripped(header, 0)
  {
    var out := "";
    var index: nat, depth: nat := 0, 0;
    PrefixedByNothing(Stripped(header, 0));
    assert header[0..] == header;
    while index < |header|
      invariant Midway(header, out, index, depth)
      decreases |header| - index
    {
      var rest := header[index..];
      var c := header[index];
      assert rest[0] == c && rest[1..] == header[index + 1..];
      if Opens(rest) {
        assert rest[2..] == header[index + 2..];
        MidwaySkips(header, out, index, depth, index + 2, depth + 1);
        depth := depth + 1;
        index := index + 2;
      } else if depth > 0 && Closes(rest) {
        assert rest[2..] == header[index + 2..];
        MidwaySkips(header, out, index, depth, index + 2, depth - 1);
        depth := depth - 1;
        index := index + 2;
      } else if depth > 0 {
        var written := if c == '\n' then "\n" else "";
        MidwayWrites(header, out, index, depth, written, index + 1, depth);
        out := out + written;
        index := index + 1;
      } else if OpensLine(rest) {
        var next := SkipLine(header, index);
        LineEndIsShorter(rest);
        MidwaySkips(header, out, index, depth, next, depth);
        index := next;
      } else {
        MidwayWrites(header, out, index, depth, [c], index + 1, depth);
        out := out + [c];
        index := index + 1;
      }
    }
    assert header[index..] == "";
    if depth != 0 {
      return None;
    }
    assert out + "" == out;
    result := Some(out);
  }
}
