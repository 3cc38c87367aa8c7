/** What the generator is given: a package path, and a header whose comments and directives are removed before its
    declarations are read. */
module HeaderInputs {
  import opened Wrappers
  import opened Texts
  import opened HeaderComments
  import opened Declarations
  import opened Bindings

  // ----- Lines -----

  /** A line that ends in a carriage return and a line feed ends before both. */
  function Chopped(line: string): string {
    if line != "" && line[|line| - 1] == '\r' then line[..|line| - 1] else line
  }

  /** The lines of `s` when `current` has been read of the first. */
  function LinesFrom(s: string, current: string): seq<string>
    decreases s
  {
    if s == "" then if current == "" then [] else [current]
    else if s[0] == '\n' then [Chopped(current)] + LinesFrom(s[1..], "")
    else LinesFrom(s[1..], current + [s[0]])
  }

  function LinesOf(s: string): seq<string> {
    LinesFrom(s, "")
  }

  predicate IsDirective(line: string) {
    var text := TrimStart(line);
    text != "" && text[0] == '#'
  }

  /** A directive is a line whose first character that is no white space is a hash. */
  lemma DirectiveIff(line: string)
    ensures IsDirective(line)
      <==> exists n :: 0 <= n < |line| && line[n] == '#' && forall i :: 0 <= i < n ==> IsSpace(line[i])
  {
    var m := TrimStartDrops(line);
    if m < |line| {
      assert TrimStart(line)[0] == line[m];
    }
  }

  function Undirected(lines: seq<string>): (r: seq<string>)
    ensures forall line :: line in r ==> line in lines && !IsDirective(line)
  {
    if lines == [] then []
    else if IsDirective(lines[0]) then Undirected(lines[1..])
    else [lines[0]] + Undirected(lines[1..])
  }

  /** Of the other lines each is kept, in its place. */
  lemma {:induction false} UndirectedAcross(before: seq<string>, line: string, after: seq<string>)
    ensures Undirected(before + [line] + after)
      == Undirected(before) + (if IsDirective(line) then [] else [line]) + Undirected(after)
    decreases |before|
  {
    var lines := before + [line] + after;
    if before == [] {
      assert lines[0] == line && lines[1..] == after;
    } else {
      assert lines[0] == before[0] && lines[1..] == before[1..] + [line] + after;
      UndirectedAcross(before[1..], line, after);
    }
  }

  /** The header without comments, and then without the lines that are directives; none if a comment is left open. */
  function Cleaned(header: string): Option<string> {
    match Stripped(header, 0)
    case None => None
    case Some(text) => Some(Join(Undirected(LinesOf(text)), "\n"))
  }

  // ----- Nothing is left to remove -----

  lemma NoOpenerPart(s: string, i: nat, j: nat)
    requires i <= j <= |s| && NoOpener(s)
    ensures NoOpener(s[i..j])
  {
    forall k | 0 <= k < j - i - 1 && s[i..j][k] == '/'
      ensures s[i..j][k + 1] != '/' && s[i..j][k + 1] != '*'
    {
      assert s[i + k] == '/' && s[i..j][k + 1] == s[i + k + 1];
    }
  }

  predicate IsLine(line: string) {
    '\n' !in line
  }

  lemma LineCutOff(current: string, s: string)
    requires s != "" && s[0] == '\n' && NoOpener(current + s) && IsLine(current)
    ensures NoOpener(Chopped(current)) && IsLine(Chopped(current)) && NoOpener(s[1..])
  {
    var all, n := current + s, |Chopped(current)|;
    NoOpenerPart(all, 0, n);
    assert Chopped(current) == all[0..n];
    NoOpenerPart(all, |current| + 1, |all|);
    assert all[|current| + 1..|all|] == s[1..];
  }

  lemma LineGoesOn(current: string, s: string)
    requires s != "" && s[0] != '\n' && IsLine(current)
    ensures current + [s[0]] + s[1..] == current + s && IsLine(current + [s[0]])
  {
  }

  /** A text without comments has lines without comments. */
  lemma {:induction false} LinesHaveNoOpener(s: string, current: string)
    requires NoOpener(current + s) && IsLine(current)
    ensures forall line :: line in LinesFrom(s, current) ==> NoOpener(line) && IsLine(line)
    decreases s
  {
    if s == "" {
      assert current + s == current;
    } else if s[0] == '\n' {
      LineCutOff(current, s);
      assert "" + s[1..] == s[1..];
      LinesHaveNoOpener(s[1..], "");
    } else {
      LineGoesOn(current, s);
      LinesHaveNoOpener(s[1..], current + [s[0]]);
    }
  }

  lemma NoOpenerAcross(a: string, b: string)
    requires NoOpener(a) && NoOpener(b)
    ensures NoOpener(a + "\n" + b)
  {
    var s := a + "\n" + b;
    forall i | 0 <= i < |s| - 1 && s[i] == '/'
      ensures s[i + 1] != '/' && s[i + 1] != '*'
    {
      if i < |a| {
        assert s[i + 1] == if i + 1 < |a| then a[i + 1] else '\n';
      } else {
        assert s[i] == b[i - |a| - 1] && s[i + 1] == b[i - |a|];
      }
    }
  }

  lemma {:induction false} JoinHasNoOpener(lines: seq<string>)
    requires forall line :: line in lines ==> NoOpener(line)
    ensures NoOpener(Join(lines, "\n"))
  {
    if |lines| > 1 {
      JoinHasNoOpener(lines[1..]);
      NoOpenerAcross(lines[0], Join(lines[1..], "\n"));
    }
  }

  lemma {:induction false} LinesOfLast(line: string, current: string)
    requires IsLine(line)
    ensures LinesFrom(line, current) == if current + line == "" then [] else [current + line]
    decreases line
  {
    if line == "" {
      assert current + line == current;
    } else {
      LinesOfLast(line[1..], current + [line[0]]);
      assert current + [line[0]] + line[1..] == current + line;
    }
  }

  lemma {:induction false} LinesAcross(line: string, rest: string, current: string)
    requires IsLine(line)
    ensures LinesFrom(line + "\n" + rest, current) == [Chopped(current + line)] + LinesFrom(rest, "")
    decreases line
  {
    var s := line + "\n" + rest;
    if line == "" {
      assert s[0] == '\n' && s[1..] == rest && current + line == current;
    } else {
      assert s[0] == line[0] && s[1..] == line[1..] + "\n" + rest;
      LinesAcross(line[1..], rest, current + [line[0]]);
      assert current + [line[0]] + line[1..] == current + line;
    }
  }

  lemma {:induction false} ChoppedIsNoDirective(line: string)
    requires !IsDirective(line)
    ensures !IsDirective(Chopped(line))
  {
    if line != "" && IsSpace(line[0]) && Chopped(line) != "" {
      assert Chopped(line[1..]) == Chopped(line)[1..];
      ChoppedIsNoDirective(line[1..]);
    }
  }

  /** Joining lines that are no directives makes no directive. */
  lemma {:induction false} JoinedLinesAreNone(lines: seq<string>)
    requires forall line :: line in lines ==> IsLine(line) && !IsDirective(line)
    ensures forall line :: line in LinesOf(Join(lines, "\n")) ==> !IsDirective(line)
  {
    if lines == [] {
    } else if |lines| == 1 {
      LinesOfLast(lines[0], "");
      assert "" + lines[0] == lines[0];
    } else {
      JoinedLinesAreNone(lines[1..]);
      LinesAcross(lines[0], Join(lines[1..], "\n"), "");
      assert "" + lines[0] == lines[0];
      ChoppedIsNoDirective(lines[0]);
    }
  }

  /** Of what is handed on nothing would be removed again: removing comments joins no two halves of a comment, and
      removing directives lets none appear. */
  lemma NothingLeftToRemove(header: string)
    requires Cleaned(header).Some?
    ensures var text := Cleaned(header).value;
      Stripped(text, 0) == Some(text) && forall line :: line in LinesOf(text) ==> !IsDirective(line)
  {
    var stripped := Stripped(header, 0).value;
    var lines := LinesOf(stripped);
    NothingLeftToStrip(header, 0);
    assert "" + stripped == stripped;
    LinesHaveNoOpener(stripped, "");
    JoinHasNoOpener(Undirected(lines));
    CleanIsKept(Join(Undirected(lines), "\n"));
    JoinedLinesAreNone(Undirected(lines));
  }

  /** An empty last line is lost, so that a second pass may lose another. */
  lemma LastEmptyLineIsLost()
    ensures Cleaned("\n\n") == Some("\n") && Cleaned("\n") == Some("")
  {
    CleanIsKept("\n");
    CleanIsKept("\n\n");
    assert "\n"[1..] == "" && "\n\n"[1..] == "\n";
    var one, two := [""], ["", ""];
    assert LinesOf("\n") == one && LinesOf("\n\n") == one + LinesOf("\n") == two;
    assert two[1..] == one && one[1..] == [];
    assert Undirected(one) == one && Undirected(two) == two;
    var brk := "\n";
    assert Join(one, brk) == "";
    assert Join(two, brk) == "" + brk + Join(two[1..], brk) == brk;
    assert Cleaned(brk) == Some(Join(Undirected(LinesOf(brk)), brk));
  }

  // ----- A quiet header is handed on -----

  function LastBreakDropped(s: string): string {
    if s != "" && s[|s| - 1] == '\n' then s[..|s| - 1] else s
  }

  lemma {:induction false} LinesAreJoined(s: string, current: string)
    requires '\r' !in current + s && IsLine(current)
    ensures Join(LinesFrom(s, current), "\n") == LastBreakDropped(current + s)
    decreases s
  {
    if s == "" {
      assert current + s == current;
    } else if s[0] == '\n' {
      var rest := s[1..];
      assert Chopped(current) == current && "" + rest == rest;
      LinesAreJoined(rest, "");
      if rest != "" {
        LinesLeft(rest, "");
        BreakIsKept(current, s);
      } else {
        assert current + s == current + "\n";
      }
    } else {
      LineGoesOn(current, s);
      LinesAreJoined(s[1..], current + [s[0]]);
    }
  }

  lemma BreakIsKept(current: string, s: string)
    requires |s| > 1 && s[0] == '\n'
    ensures current + "\n" + LastBreakDropped(s[1..]) == LastBreakDropped(current + s)
  {
  }

  lemma {:induction false} LinesLeft(s: string, current: string)
    requires current + s != ""
    ensures LinesFrom(s, current) != []
    decreases s
  {
    if s != "" && s[0] != '\n' {
      LinesLeft(s[1..], current + [s[0]]);
    }
  }

  lemma {:induction false} LinesLack(s: string, current: string, c: char)
    requires c !in current + s
    ensures forall line :: line in LinesFrom(s, current) ==> c !in line
    decreases s
  {
    if s != "" && s[0] == '\n' {
      LinesLack(s[1..], "", c);
    } else if s != "" {
      assert current + [s[0]] + s[1..] == current + s;
      LinesLack(s[1..], current + [s[0]], c);
    }
  }

  lemma NoDirective(line: string)
    requires '#' !in line
    ensures !IsDirective(line)
  {
    var n := TrimStartDrops(line);
    if n < |line| {
      assert TrimStart(line)[0] == line[n];
    }
  }

  lemma {:induction false} NothingIsDirected(lines: seq<string>)
    requires forall line :: line in lines ==> '#' !in line
    ensures Undirected(lines) == lines
  {
    if lines != [] {
      NoDirective(lines[0]);
      NothingIsDirected(lines[1..]);
    }
  }

  /** Lines without hash and carriage return are handed on, but for a last line break. */
  lemma LinesAreKept(text: string)
    requires '#' !in text && '\r' !in text
    ensures Join(Undirected(LinesOf(text)), "\n") == LastBreakDropped(text)
  {
    assert "" + text == text;
    LinesLack(text, "", '#');
    NothingIsDirected(LinesOf(text));
    LinesAreJoined(text, "");
  }

  /** So is a header that has no slash either. */
  lemma QuietIsKept(header: string)
    requires '/' !in header && '#' !in header && '\r' !in header
    ensures Cleaned(header) == Some(LastBreakDropped(header))
  {
    CleanIsKept(header);
    LinesAreKept(header);
  }

  /** `strip_comments_and_directives`. */
  method StripCommentsAndDirectives(header: string) returns (result: Option<string>)
    ensures result == Cleaned(header)
  {
    var stripped := StripComments(header);
    if stripped.None? {
      return None;
    }
    result := Some(Join(Undirected(LinesOf(stripped.value)), "\n"));
  }

  // ----- The package path -----

  function SegmentsFrom(s: string, current: string): (r: seq<string>)
    ensures r != []
    decreases s
  {
    if s == "" then [current]
    else if s[0] == '.' then [current] + SegmentsFrom(s[1..], "")
    else SegmentsFrom(s[1..], current + [s[0]])
  }

  /** Every part between dots is an identifier; of the empty path the one part is empty. */
  predicate IsPackagePath(package: string) {
    forall i :: 0 <= i < |SegmentsFrom(package, "")| ==> IsIdentifier(SegmentsFrom(package, "")[i])
  }

  lemma {:induction false} SegmentsJoin(s: string, current: string)
    ensures Join(SegmentsFrom(s, current), ".") == current + s
    decreases s
  {
    if s == "" {
    } else if s[0] == '.' {
      SegmentsJoin(s[1..], "");
      var rest := SegmentsFrom(s[1..], "");
      assert ([current] + rest)[1..] == rest && current + "." + s[1..] == current + s;
    } else {
      SegmentsJoin(s[1..], current + [s[0]]);
      assert current + [s[0]] + s[1..] == current + s;
    }
  }

  lemma {:induction false} SegmentOfWord(word: string, current: string)
    requires '.' !in word
    ensures SegmentsFrom(word, current) == [current + word]
    decreases word
  {
    if word == "" {
      assert current + word == current;
    } else {
      SegmentOfWord(word[1..], current + [word[0]]);
      assert current + [word[0]] + word[1..] == current + word;
    }
  }

  lemma {:induction false} SegmentsAcross(word: string, rest: string, current: string)
    requires '.' !in word
    ensures SegmentsFrom(word + "." + rest, current) == [current + word] + SegmentsFrom(rest, "")
    decreases word
  {
    var s := word + "." + rest;
    if word == "" {
      assert s[0] == '.' && s[1..] == rest && current + word == current;
    } else {
      assert s[0] == word[0] && s[1..] == word[1..] + "." + rest;
      SegmentsAcross(word[1..], rest, current + [word[0]]);
      assert current + [word[0]] + word[1..] == current + word;
    }
  }

  lemma {:induction false} SegmentsOfJoin(names: seq<string>)
    requires names != [] && forall i :: 0 <= i < |names| ==> IsIdentifier(names[i])
    ensures SegmentsFrom(Join(names, "."), "") == names
  {
    assert '.' !in names[0] && "" + names[0] == names[0];
    if |names| == 1 {
      SegmentOfWord(names[0], "");
    } else {
      SegmentsOfJoin(names[1..]);
      SegmentsAcross(names[0], Join(names[1..], "."), "");
    }
  }

  ghost predicate IsDotted(package: string, names: seq<string>) {
    names != [] && (forall i :: 0 <= i < |names| ==> IsIdentifier(names[i])) && package == Join(names, ".")
  }

  /** The package paths are exactly the identifiers joined by dots. */
  lemma PackagePathIff(package: string)
    ensures IsPackagePath(package) <==> exists names :: IsDotted(package, names)
  {
    SegmentsJoin(package, "");
    assert "" + package == package;
    if IsPackagePath(package) {
      assert IsDotted(package, SegmentsFrom(package, ""));
    }
    if names :| IsDotted(package, names) {
      SegmentsOfJoin(names);
    }
  }

  // ----- The whole generator -----

  /** The binding for a header as it stands. */
  function GeneratedFrom(package: string, header: string): Result<string, HeaderError> {
    if !IsPackagePath(package) then Err(BadPackage(package))
    else match Cleaned(header)
      case None => Err(OpenComment)
      case Some(cleaned) => Generated(package, cleaned)
  }
}
