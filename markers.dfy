/**
 * Chord markers `[Name]` as the two regexes of the code find them:
 * `/\[([A-Za-z0-9#]+)\]/g` in the reader (src/App.jsx) and
 * `/\[([A-Za-z0-9#\/]+)\]/g` in the extractor's chord summary (parse-song.cjs).
 * The flag `slash` selects the second alphabet.
 */
module Markers {
  import opened Wrappers

  /** A character the token class accepts: `[A-Za-z0-9#]`, plus `/` when `slash`. */
  predicate IsTokenChar(c: char, slash: bool) {
    ('A' <= c <= 'Z') || ('a' <= c <= 'z') || ('0' <= c <= '9') || c == '#' || (slash && c == '/')
  }

  /** A name the marker regex accepts between the brackets. */
  predicate IsToken(name: string, slash: bool) {
    |name| > 0 && forall i :: 0 <= i < |name| ==> IsTokenChar(name[i], slash)
  }

  /** The length of the run of token characters `s` starts with. */
  function TokenRun(s: string, slash: bool): (n: nat)
    ensures n <= |s|
    ensures forall i :: 0 <= i < n ==> IsTokenChar(s[i], slash)
    ensures n < |s| ==> !IsTokenChar(s[n], slash)
  {
    if s != [] && IsTokenChar(s[0], slash) then 1 + TokenRun(s[1..], slash) else 0
  }

  /** The length of the marker match at the start of `s`, or 0 when the regex does not match there.
      Brackets are not token characters, so the greedy `+` never has to backtrack. */
  function MarkerLength(s: string, slash: bool): (n: nat)
    ensures n == 0 || (3 <= n <= |s| && s[0] == '[' && s[n - 1] == ']' && IsToken(s[1..n - 1], slash))
  {
    if s != [] && s[0] == '[' then
      var k := TokenRun(s[1..], slash);
      assert forall i :: 0 <= i < k ==> s[1..][i] == s[1 + i];
      if k > 0 && 1 + k < |s| && s[1 + k] == ']' then
        assert s[1..k + 1] == s[1..][..k];
        k + 2
      else 0
    else 0
  }

  /** The chord name of the marker at the start of `s` (the regex's group 1). */
  function MarkerName(s: string, slash: bool): string
    requires MarkerLength(s, slash) > 0
  {
    s[1..MarkerLength(s, slash) - 1]
  }

  /** `s.match(regex)` with the g flag, each match without its brackets: the names of the
      markers a left-to-right scan finds, resuming after each match. */
  function Names(s: string, slash: bool): seq<string>
  {
    if s == [] then []
    else if MarkerLength(s, slash) > 0 then [MarkerName(s, slash)] + Names(s[MarkerLength(s, slash)..], slash)
    else Names(s[1..], slash)
  }

  /** `s` with every marker that scan finds deleted. */
  function Unmark(s: string, slash: bool): string
  {
    if s == [] then []
    else if MarkerLength(s, slash) > 0 then Unmark(s[MarkerLength(s, slash)..], slash)
    else [s[0]] + Unmark(s[1..], slash)
  }

  /** `regex.exec(s)` started at `regex.lastIndex == from`: the index of the first match at or after `from`. */
  function Find(s: string, from: nat, slash: bool): (m: Option<nat>)
    ensures m.Some? ==> from <= m.value < |s| && MarkerLength(s[m.value..], slash) > 0
    decreases |s| - from
  {
    if from >= |s| then None
    else if MarkerLength(s[from..], slash) > 0 then Some(from)
    else Find(s, from + 1, slash)
  }

  /** The exec that starts on a match finds that match. */
  lemma FindHere(s: string, i: nat, slash: bool)
    requires i < |s| && MarkerLength(s[i..], slash) > 0
    ensures Find(s, i, slash) == Some(i)
  {
  }

  /** Where the match found by an exec from `from` ends (`regex.lastIndex` after it). */
  function MatchEnd(s: string, i: nat, slash: bool): nat
    requires i < |s| && MarkerLength(s[i..], slash) > 0
  {
    i + MarkerLength(s[i..], slash)
  }

  /** What the g-flag scan of the suffix from `from` sees is decided by the next exec from `from`:
      nothing when it fails, else the match and the scan after it. */
  lemma {:induction false} NamesFrom(s: string, from: nat, slash: bool)
    requires from <= |s|
    ensures Find(s, from, slash).None? ==> Names(s[from..], slash) == []
    ensures Find(s, from, slash).Some? ==>
      Names(s[from..], slash)
      == [MarkerName(s[Find(s, from, slash).value..], slash)] + Names(s[MatchEnd(s, Find(s, from, slash).value, slash)..], slash)
    decreases |s| - from
  {
    if from == |s| {
      assert s[from..] == [];
    } else if MarkerLength(s[from..], slash) > 0 {
      assert s[from..][MarkerLength(s[from..], slash)..] == s[MatchEnd(s, from, slash)..];
    } else {
      ScanStep(s, from, slash);
      assert Find(s, from, slash) == Find(s, from + 1, slash);
      NamesFrom(s, from + 1, slash);
    }
  }

  /** Deleting the markers of the suffix from `from` keeps the text before the next match
      and continues after it. */
  ghost predicate UnmarkSplits(s: string, from: nat, slash: bool)
    requires from <= |s|
  {
    match Find(s, from, slash)
    case None => Unmark(s[from..], slash) == s[from..]
    case Some(i) => Unmark(s[from..], slash) == s[from..i] + Unmark(s[MatchEnd(s, i, slash)..], slash)
  }

  lemma {:induction false} UnmarkFrom(s: string, from: nat, slash: bool)
    requires from <= |s|
    ensures UnmarkSplits(s, from, slash)
    decreases |s| - from
  {
    if from == |s| {
      assert s[from..] == [];
    } else if MarkerLength(s[from..], slash) > 0 {
      UnmarkHere(s, from, slash);
    } else {
      UnmarkFrom(s, from + 1, slash);
      UnmarkSkip(s, from, slash);
    }
  }

  lemma UnmarkHere(s: string, from: nat, slash: bool)
    requires from < |s| && MarkerLength(s[from..], slash) > 0
    ensures UnmarkSplits(s, from, slash)
  {
    var t, n := s[from..], MarkerLength(s[from..], slash);
    assert Find(s, from, slash) == Some(from);
    assert t[n..] == s[MatchEnd(s, from, slash)..];
    UnmarkAt(t, n, s[MatchEnd(s, from, slash)..], slash);
    assert s[from..from] + Unmark(t[n..], slash) == Unmark(t[n..], slash);
  }

  lemma UnmarkAt(t: string, n: nat, rest: string, slash: bool)
    requires t != [] && n == MarkerLength(t, slash) && n > 0 && rest == t[n..]
    ensures Unmark(t, slash) == Unmark(rest, slash)
  {
  }

  lemma UnmarkSkip(s: string, from: nat, slash: bool)
    requires from < |s| && MarkerLength(s[from..], slash) == 0
    requires UnmarkSplits(s, from + 1, slash)
    ensures UnmarkSplits(s, from, slash)
  {
    ScanStep(s, from, slash);
    assert Find(s, from, slash) == Find(s, from + 1, slash);
    var m := Find(s, from, slash);
    if m.Some? {
      ConsSlice(s, from, m.value, Unmark(s[MatchEnd(s, m.value, slash)..], slash));
    } else {
      assert s[from..] == [s[from]] + s[from + 1..];
    }
  }

  lemma ConsSlice(s: string, from: nat, i: nat, tail: string)
    requires from < i <= |s|
    ensures [s[from]] + (s[from + 1..i] + tail) == s[from..i] + tail
  {
    assert s[from..i] == [s[from]] + s[from + 1..i];
  }

  /** A position where no marker starts is skipped by the scan and kept by the deletion. */
  lemma ScanStep(s: string, from: nat, slash: bool)
    requires from < |s| && MarkerLength(s[from..], slash) == 0
    ensures Names(s[from..], slash) == Names(s[from + 1..], slash)
    ensures Unmark(s[from..], slash) == [s[from]] + Unmark(s[from + 1..], slash)
  {
    assert s[from..][1..] == s[from + 1..];
  }

  /** Text without an opening bracket contributes no marker and survives deletion unchanged. */
  lemma {:induction false} ScanPlain(t: string, u: string, slash: bool)
    requires '[' !in t
    ensures Names(t + u, slash) == Names(u, slash)
    ensures Unmark(t + u, slash) == t + Unmark(u, slash)
  {
    if t == [] {
      assert t + u == u;
    } else {
      assert (t + u)[0] == t[0] && (t + u)[1..] == t[1..] + u;
      ScanPlain(t[1..], u, slash);
    }
  }

  /** A bracketed token is found as one marker whatever follows it. */
  lemma ScanMarker(name: string, u: string, slash: bool)
    requires IsToken(name, slash)
    ensures Names("[" + name + "]" + u, slash) == [name] + Names(u, slash)
    ensures Unmark("[" + name + "]" + u, slash) == Unmark(u, slash)
  {
    var s := "[" + name + "]" + u;
    assert s[1..] == name + ("]" + u);
    TokenRunOver(name, "]" + u, slash);
    assert s[1..|name| + 1] == name;
    assert MarkerLength(s, slash) == |name| + 2;
    assert s[|name| + 2..] == u;
  }

  /** The token run over a name stops at the first character that is not a token character. */
  lemma {:induction false} TokenRunOver(name: string, rest: string, slash: bool)
    requires forall i :: 0 <= i < |name| ==> IsTokenChar(name[i], slash)
    requires rest != [] && !IsTokenChar(rest[0], slash)
    ensures TokenRun(name + rest, slash) == |name|
  {
    if name == [] {
      assert name + rest == rest;
    } else {
      assert (name + rest)[0] == name[0] && (name + rest)[1..] == name[1..] + rest;
      TokenRunOver(name[1..], rest, slash);
    }
  }

  /** A `/` is no token character for the reader, so `[G/B]` stays literal text there,
      while the extractor's summary accepts it. */
  lemma SlashChords()
    ensures Names("[G/B]", false) == [] && Unmark("[G/B]", false) == "[G/B]"
    ensures Names("[G/B]", true) == ["G/B"] && Unmark("[G/B]", true) == ""
  {
    SlashLiteral();
    ScanMarker("G/B", [], true);
    assert "[G/B]" == "[" + "G/B" + "]" + [];
  }

  lemma SlashLiteral()
    ensures Names("[G/B]", false) == [] && Unmark("[G/B]", false) == "[G/B]"
  {
    var s := "[G/B]";
    assert MarkerLength(s, false) == 0 by { assert TokenRun(s[1..], false) == 1; }
    assert s[1..] == "G/B]" + [];
    ScanPlain("G/B]", [], false);
  }
}
