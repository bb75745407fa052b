/**
 * What parse-song.cjs prints once the rows are read: the lines joined into the song sheet
 * and cleaned of surplus blank lines (lines 150-152), and the set of chord names the lines
 * use (lines 158-162).
 */
module SheetOutput {
  import opened JsText
  import Markers
  import Seqs

  /** The length of the run of newlines `s` starts with. */
  function LeadingNewlines(s: string): (n: nat)
    ensures n <= |s|
    ensures forall i :: 0 <= i < n ==> s[i] == '\n'
    ensures n < |s| ==> s[n] != '\n'
  {
    if s != [] && s[0] == '\n' then 1 + LeadingNewlines(s[1..]) else 0
  }

  /** `output.replace(/^\n+/, '')` (line 151): the longest run of newlines at the start is removed. */
  function StripLeadingNewlines(s: string): (r: string)
    ensures |r| <= |s| && r == s[|s| - |r|..]
    ensures forall i :: 0 <= i < |s| - |r| ==> s[i] == '\n'
    ensures r == [] || r[0] != '\n'
  {
    s[LeadingNewlines(s)..]
  }

  /** `output.replace(/\n{3,}/g, '\n\n')` (line 152): scanning from the left, each run of
      three or more newlines, taken whole, becomes two. */
  function CollapseBlankLines(s: string): (r: string)
    ensures LeadingNewlines(r) == Min(LeadingNewlines(s), 2)
  {
    if s == [] then []
    else
      var n := LeadingNewlines(s);
      if n >= 3 then "\n\n" + CollapseBlankLines(s[n..])
      else [s[0]] + CollapseBlankLines(s[1..])
  }

  /** No position of `s` starts a run of more than two newlines: no more than one blank line
      anywhere. */
  predicate ShortRuns(s: string) {
    forall i :: 0 <= i <= |s| ==> LeadingNewlines(s[i..]) <= 2
  }

  function IsText(c: char): bool { c != '\n' }

  /** The collapsed text has no run of three newlines. */
  lemma {:induction false} CollapseShort(s: string)
    ensures ShortRuns(CollapseBlankLines(s))
    decreases |s|
  {
    var r := CollapseBlankLines(s);
    if s != [] {
      var n := LeadingNewlines(s);
      if n >= 3 {
        var t := CollapseBlankLines(s[n..]);
        CollapseShort(s[n..]);
        forall i | 2 <= i <= |r| ensures LeadingNewlines(r[i..]) <= 2 {
          assert r[i..] == t[i - 2..];
        }
        assert r[1..] == "\n" + t;
        assert r[0..] == r;
      } else {
        var t := CollapseBlankLines(s[1..]);
        CollapseShort(s[1..]);
        forall i | 1 <= i <= |r| ensures LeadingNewlines(r[i..]) <= 2 {
          assert r[i..] == t[i - 1..];
        }
        assert r[0..] == r;
      }
    }
  }

  /** Collapsing keeps every character other than a newline, in order. */
  lemma {:induction false} CollapseText(s: string)
    ensures Seqs.Filter(CollapseBlankLines(s), IsText) == Seqs.Filter(s, IsText)
    decreases |s|
  {
    if s != [] {
      var n := LeadingNewlines(s);
      if n >= 3 {
        CollapseText(s[n..]);
        RunText(s, n, CollapseBlankLines(s[n..]));
      } else {
        CollapseText(s[1..]);
        CopyText(s[0], CollapseBlankLines(s[1..]), s[1..]);
        assert s == [s[0]] + s[1..];
      }
    }
  }

  lemma RunText(s: string, n: nat, t: string)
    requires n <= |s| && forall i :: 0 <= i < n ==> s[i] == '\n'
    requires Seqs.Filter(t, IsText) == Seqs.Filter(s[n..], IsText)
    ensures Seqs.Filter("\n\n" + t, IsText) == Seqs.Filter(s, IsText)
  {
    Seqs.FilterAppend("\n\n", t, IsText);
    Seqs.FilterNone("\n\n", IsText);
    assert s == s[..n] + s[n..];
    Seqs.FilterAppend(s[..n], s[n..], IsText);
    Seqs.FilterNone(s[..n], IsText);
  }

  lemma CopyText(c: char, t: string, u: string)
    requires Seqs.Filter(t, IsText) == Seqs.Filter(u, IsText)
    ensures Seqs.Filter([c] + t, IsText) == Seqs.Filter([c] + u, IsText)
  {
    Seqs.FilterAppend([c], t, IsText);
    Seqs.FilterAppend([c], u, IsText);
  }

  /** Text with no long run of newlines is left as it is, so collapsing twice is collapsing once. */
  lemma {:induction false} CollapseFixed(s: string)
    requires ShortRuns(s)
    ensures CollapseBlankLines(s) == s
    decreases |s|
  {
    if s != [] {
      assert LeadingNewlines(s[0..]) <= 2 by { assert s[0..] == s; }
      assert ShortRuns(s[1..]) by {
        forall i | 0 <= i <= |s[1..]| ensures LeadingNewlines(s[1..][i..]) <= 2 {
          assert s[1..][i..] == s[i + 1..];
        }
      }
      CollapseFixed(s[1..]);
    }
  }

  lemma CollapseIdempotent(s: string)
    ensures CollapseBlankLines(CollapseBlankLines(s)) == CollapseBlankLines(s)
  {
    CollapseShort(s);
    CollapseFixed(CollapseBlankLines(s));
  }

  /** `n` newlines. */
  function Newlines(n: nat): (r: string)
    ensures |r| == n && forall i :: 0 <= i < n ==> r[i] == '\n'
  {
    if n == 0 then [] else "\n" + Newlines(n - 1)
  }

  /** The collapse works run by run: a run of `n` newlines between two pieces of text becomes
      `min(n, 2)` newlines, so a run of three or more becomes exactly one blank line and a
      shorter run stays as it is, while the text on either side is collapsed on its own. */
  lemma {:induction false} CollapseRun(a: string, n: nat, b: string)
    requires a == [] || a[|a| - 1] != '\n'
    requires b == [] || b[0] != '\n'
    ensures CollapseBlankLines(a + (Newlines(n) + b)) == CollapseBlankLines(a) + (Newlines(Min(n, 2)) + CollapseBlankLines(b))
    decreases |a|
  {
    if a == [] {
      RunFromStart(a, n, b);
    } else {
      var k, h := HeadStep(a);
      CollapseRun(a[k..], n, b);
      RunAfterHead(a, Newlines(n) + b, k, h, Newlines(Min(n, 2)) + CollapseBlankLines(b));
    }
  }

  lemma RunFromStart(a: string, n: nat, b: string)
    requires a == [] && (b == [] || b[0] != '\n')
    ensures CollapseBlankLines(a + (Newlines(n) + b)) == CollapseBlankLines(a) + (Newlines(Min(n, 2)) + CollapseBlankLines(b))
  {
    assert a + (Newlines(n) + b) == Newlines(n) + b;
    CollapseLeadingRun(n, b);
  }

  /** What follows text not ending in a newline is collapsed as it would be after the text's
      rest, once the text's first step is taken. */
  lemma RunAfterHead(a: string, t: string, k: nat, h: string, w: string)
    requires a != [] && a[|a| - 1] != '\n'
    requires 1 <= k <= |a|
    requires LeadingNewlines(a) >= 3 ==> k == LeadingNewlines(a) && h == "\n\n"
    requires LeadingNewlines(a) < 3 ==> k == 1 && h == [a[0]]
    requires CollapseBlankLines(a) == h + CollapseBlankLines(a[k..])
    requires CollapseBlankLines(a[k..] + t) == CollapseBlankLines(a[k..]) + w
    ensures CollapseBlankLines(a + t) == CollapseBlankLines(a) + w
  {
    SameHead(a, t, k, h);
    Regroup(h, CollapseBlankLines(a[k..]), w);
  }

  /** One step of the collapse: the head it writes and where it carries on. */
  lemma HeadStep(x: string) returns (k: nat, h: string)
    requires x != []
    ensures 1 <= k <= |x|
    ensures LeadingNewlines(x) >= 3 ==> k == LeadingNewlines(x) && h == "\n\n"
    ensures LeadingNewlines(x) < 3 ==> k == 1 && h == [x[0]]
    ensures CollapseBlankLines(x) == h + CollapseBlankLines(x[k..])
    ensures x[k..] == [] || x[k..][|x[k..]| - 1] == x[|x| - 1]
  {
    if LeadingNewlines(x) >= 3 {
      k, h := LeadingNewlines(x), "\n\n";
    } else {
      k, h := 1, [x[0]];
    }
  }

  /** Text not ending in a newline starts its collapse the same way whatever follows it. */
  lemma SameHead(a: string, t: string, k: nat, h: string)
    requires a != [] && a[|a| - 1] != '\n'
    requires 1 <= k <= |a|
    requires LeadingNewlines(a) >= 3 ==> k == LeadingNewlines(a) && h == "\n\n"
    requires LeadingNewlines(a) < 3 ==> k == 1 && h == [a[0]]
    ensures CollapseBlankLines(a + t) == h + CollapseBlankLines(a[k..] + t)
  {
    LeadingWithin(a, t);
    var k2, h2 := HeadStep(a + t);
    assert (a + t)[0] == a[0];
    SliceAfter(a, t, k);
  }

  lemma SliceAfter(a: string, t: string, k: nat)
    requires k <= |a|
    ensures (a + t)[k..] == a[k..] + t
  {
  }

  lemma Regroup(h: string, u: string, w: string)
    ensures h + (u + w) == (h + u) + w
  {
  }

  /** A run of newlines at the start, before text, is cut to two. */
  lemma {:induction false} CollapseLeadingRun(n: nat, b: string)
    requires b == [] || b[0] != '\n'
    ensures CollapseBlankLines(Newlines(n) + b) == Newlines(Min(n, 2)) + CollapseBlankLines(b)
  {
    var s := Newlines(n) + b;
    if n == 0 {
      assert s == b;
    } else {
      LeadingRun(n, b);
      var k, h := HeadStep(s);
      if n >= 3 {
        assert s[n..] == b;
        assert Newlines(2) == "\n\n";
      } else {
        assert s[1..] == Newlines(n - 1) + b;
        CollapseLeadingRun(n - 1, b);
        assert h == "\n";
        Regroup(h, Newlines(n - 1), CollapseBlankLines(b));
      }
    }
  }

  lemma {:induction false} LeadingRun(n: nat, b: string)
    requires b == [] || b[0] != '\n'
    ensures LeadingNewlines(Newlines(n) + b) == n
  {
    if n > 0 {
      assert (Newlines(n) + b)[1..] == Newlines(n - 1) + b;
      LeadingRun(n - 1, b);
    } else {
      assert Newlines(n) + b == b;
    }
  }

  /** Text that does not end with a newline has the same leading run whatever follows it. */
  lemma {:induction false} LeadingWithin(a: string, t: string)
    requires a != [] && a[|a| - 1] != '\n'
    ensures LeadingNewlines(a + t) == LeadingNewlines(a)
  {
    if a[0] == '\n' {
      assert (a + t)[1..] == a[1..] + t;
      LeadingWithin(a[1..], t);
    }
  }

  /** Three consecutive empty lines between two lines print as one blank line. */
  lemma CleanUpExample()
    ensures CleanUp(["a", "", "", "b"]) == "a\n\nb"
  {
    var j := Join(["a", "", "", "b"], "\n");
    JoinExample();
    assert Newlines(3) == "\n\n\n";
    assert j == "a" + (Newlines(3) + "b");
    assert StripLeadingNewlines(j) == j;
    CollapseRun("a", 3, "b");
    assert CollapseBlankLines("a") == "a";
    assert CollapseBlankLines("b") == "b";
  }

  lemma JoinExample()
    ensures Join(["a", "", "", "b"], "\n") == "a\n\n\nb"
  {
    assert Join(["b"], "\n") == "b";
    assert ["a", "", "", "b"][1..] == ["", "", "b"];
    assert ["", "", "b"][1..] == ["", "b"];
    assert ["", "b"][1..] == ["b"];
  }

  /** The printed song sheet (lines 150-152). */
  function CleanUp(lines: seq<string>): string {
    CollapseBlankLines(StripLeadingNewlines(Join(lines, "\n")))
  }

  /** The printed sheet does not start with a newline, has at most one blank line in a row,
      and keeps every other character of the joined lines in order. */
  lemma CleanUpSpec(lines: seq<string>)
    ensures CleanUp(lines) == [] || CleanUp(lines)[0] != '\n'
    ensures ShortRuns(CleanUp(lines))
    ensures Seqs.Filter(CleanUp(lines), IsText) == Seqs.Filter(Join(lines, "\n"), IsText)
  {
    var j := Join(lines, "\n");
    var s := StripLeadingNewlines(j);
    CollapseShort(s);
    CollapseText(s);
    var k := |j| - |s|;
    assert j == j[..k] + s;
    Seqs.FilterAppend(j[..k], s, IsText);
    Seqs.FilterNone(j[..k], IsText);
  }

  /** The markers of the lines, line after line, as the chord summary's regex (which also
      accepts `/`) finds them. */
  function AllNames(lines: seq<string>): seq<string> {
    if lines == [] then [] else AllNames(lines[..|lines| - 1]) + Markers.Names(lines[|lines| - 1], true)
  }

  /** The chord summary (lines 158-162): every chord name the lines use, once, in order of
      first use. */
  method UsedChords(lines: seq<string>) returns (allChords: seq<string>)
    ensures allChords == Seqs.Dedup(AllNames(lines))
  {
    allChords := [];
    for i := 0 to |lines|
      invariant allChords == Seqs.Dedup(AllNames(lines[..i]))
    {
      var line := lines[i];
      var matches := Markers.Names(line, true);
      assert lines[..i + 1][..i] == lines[..i] && lines[..i + 1][i] == line;
      assert AllNames(lines[..i]) + matches[..0] == AllNames(lines[..i]);
      for j := 0 to |matches|
        invariant allChords == Seqs.Dedup(AllNames(lines[..i]) + matches[..j])
      {
        AddMatch(AllNames(lines[..i]), matches, j);
        if matches[j] !in allChords {
          allChords := allChords + [matches[j]];
        }
      }
      assert matches[..|matches|] == matches;
    }
    assert lines[..|lines|] == lines;
  }

  /** One more match joins the set unless the set already holds it. */
  lemma AddMatch(seen: seq<string>, matches: seq<string>, j: nat)
    requires j < |matches|
    ensures matches[j] in Seqs.Dedup(seen + matches[..j]) ==>
      Seqs.Dedup(seen + matches[..j + 1]) == Seqs.Dedup(seen + matches[..j])
    ensures matches[j] !in Seqs.Dedup(seen + matches[..j]) ==>
      Seqs.Dedup(seen + matches[..j + 1]) == Seqs.Dedup(seen + matches[..j]) + [matches[j]]
  {
    assert seen + matches[..j + 1] == (seen + matches[..j]) + [matches[j]];
    Seqs.DedupSnoc(seen + matches[..j], matches[j]);
  }
}
