/** Strings: trimming, joining and searching. */
module Texts {
  import opened Wrappers

  /** The ASCII characters that count as white space. */
  predicate IsSpace(c: char) {
    c == ' ' || '\t' <= c <= '\r'
  }

  function TrimStart(s: string): string {
    if s != "" && IsSpace(s[0]) then TrimStart(s[1..]) else s
  }

  function TrimEnd(s: string): string {
    if s != "" && IsSpace(s[|s| - 1]) then TrimEnd(s[..|s| - 1]) else s
  }

  function Trim(s: string): string {
    TrimEnd(TrimStart(s))
  }

  function Trimmed(pieces: seq<string>): (r: seq<string>)
    ensures |r| == |pieces| && forall i :: 0 <= i < |r| ==> r[i] == Trim(pieces[i])
  {
    seq(|pieces|, i requires 0 <= i < |pieces| => Trim(pieces[i]))
  }

  lemma {:induction false} TrimStartDrops(s: string) returns (n: nat)
    ensures n <= |s| && TrimStart(s) == s[n..] && forall i :: 0 <= i < n ==> IsSpace(s[i])
    ensures n < |s| ==> !IsSpace(s[n])
  {
    n := 0;
    if s != "" && IsSpace(s[0]) {
      var m := TrimStartDrops(s[1..]);
      n := m + 1;
      assert s[1..][m..] == s[n..];
      forall i | 0 <= i < n
        ensures IsSpace(s[i])
      {
        assert i > 0 ==> s[i] == s[1..][i - 1];
      }
    }
  }

  lemma {:induction false} TrimEndDrops(s: string) returns (n: nat)
    ensures n <= |s| && TrimEnd(s) == s[..n] && forall i :: n <= i < |s| ==> IsSpace(s[i])
    ensures n > 0 ==> !IsSpace(s[n - 1])
  {
    n := |s|;
    if s != "" && IsSpace(s[|s| - 1]) {
      n := TrimEndDrops(s[..|s| - 1]);
      forall i | n <= i < |s|
        ensures IsSpace(s[i])
      {
        assert i < |s| - 1 ==> s[i] == s[..|s| - 1][i];
      }
    }
  }

  /** What is trimmed away is white space around what is left, and what is left neither starts nor ends with any. */
  lemma TrimSplits(s: string) returns (before: nat, after: nat)
    ensures before <= after <= |s| && Trim(s) == s[before..after]
    ensures forall i :: 0 <= i < before || after <= i < |s| ==> IsSpace(s[i])
    ensures before < after ==> !IsSpace(s[before]) && !IsSpace(s[after - 1])
  {
    before := TrimStartDrops(s);
    var n := TrimEndDrops(s[before..]);
    after := before + n;
    forall i | after <= i < |s|
      ensures IsSpace(s[i])
    {
      assert s[i] == s[before..][i - before];
    }
    if n > 0 {
      assert s[before..][n - 1] == s[after - 1];
    }
  }

  function Join(pieces: seq<string>, separator: string): string {
    if pieces == [] then ""
    else if |pieces| == 1 then pieces[0]
    else pieces[0] + separator + Join(pieces[1..], separator)
  }

  /** `pieces` with more text before the first of them. */
  function Prepend(text: string, pieces: seq<string>): (r: seq<string>)
    requires pieces != []
    ensures |r| == |pieces|
  {
    [text + pieces[0]] + pieces[1..]
  }

  lemma JoinPrepend(text: string, pieces: seq<string>, separator: string)
    requires pieces != []
    ensures Join(Prepend(text, pieces), separator) == text + Join(pieces, separator)
  {
    if |pieces| > 1 {
      assert Prepend(text, pieces)[1..] == pieces[1..];
    }
  }

  ghost predicate Contains(s: string, part: string) {
    exists i {:trigger s[i..]} :: 0 <= i <= |s| && part <= s[i..]
  }

  lemma ContainsLater(s: string, from: nat, part: string)
    requires from <= |s| && Contains(s[from..], part)
    ensures Contains(s, part)
  {
    var i :| 0 <= i <= |s[from..]| && part <= s[from..][i..];
    assert s[from..][i..] == s[from + i..];
  }

  lemma ContainsLonger(s: string, first: string, part: string)
    requires first <= s && Contains(first, part)
    ensures Contains(s, part)
  {
    var i :| 0 <= i <= |first| && part <= first[i..];
    assert first[i..] <= s[i..];
  }

  /** The first place at or after `from` where `part` starts. */
  function Find(s: string, part: string, from: nat): (r: Option<nat>)
    requires from <= |s|
    ensures r.Some? ==> from <= r.value <= |s| && part <= s[r.value..]
    decreases |s| - from
  {
    if part <= s[from..] then Some(from)
    else if from == |s| then None
    else Find(s, part, from + 1)
  }

  /** The first place at or after `from` where `c` occurs. */
  function FindFirst(s: string, c: char, from: nat): (r: Option<nat>)
    requires from <= |s|
    ensures r.Some? ==> from <= r.value < |s| && s[r.value] == c
    decreases |s| - from
  {
    if from == |s| then None
    else if s[from] == c then Some(from)
    else FindFirst(s, c, from + 1)
  }

  /** Nothing is found before the first place, and nothing at all only if there is no place. */
  lemma {:induction false} FindIsFirst(s: string, part: string, from: nat)
    requires from <= |s|
    ensures var r := Find(s, part, from);
      forall i {:trigger s[i..]} :: from <= i <= |s| && (r.Some? ==> i < r.value) ==> !(part <= s[i..])
    decreases |s| - from
  {
    if !(part <= s[from..]) && from < |s| {
      FindIsFirst(s, part, from + 1);
    }
  }

  lemma {:induction false} FindFirstIsFirst(s: string, c: char, from: nat)
    requires from <= |s|
    ensures var r := FindFirst(s, c, from);
      forall i :: from <= i < |s| && (r.Some? ==> i < r.value) ==> s[i] != c
    decreases |s| - from
  {
    if from < |s| && s[from] != c {
      FindFirstIsFirst(s, c, from + 1);
    }
  }

  /** The last place `c` occurs. */
  function FindLast(s: string, c: char): (r: Option<nat>)
    ensures r.Some? ==> r.value < |s| && s[r.value] == c && forall i :: r.value < i < |s| ==> s[i] != c
    ensures r.None? ==> c !in s
  {
    if s == "" then None
    else if s[|s| - 1] == c then Some(|s| - 1)
    else FindLast(s[..|s| - 1], c)
  }
}
