/**
 * The reader of the bracket format in src/App.jsx: `extractChords`, the unique chord
 * names of a text, and `parseLine`, which splits one line into chord/text parts.
 */
module Reader {
  import opened Wrappers
  import opened Markers
  import Seqs

  /** One `{chord, text}` object of `parseLine`; `chord` is null for plain text. */
  datatype Part = Part(chord: Option<string>, text: string)

  /** What a part stands for in the line: its marker, if any, then its text. */
  function RenderPart(p: Part): string {
    (if p.chord.Some? then "[" + p.chord.value + "]" else "") + p.text
  }

  /** The parts put back together. */
  function Render(parts: seq<Part>): string {
    if parts == [] then [] else Render(parts[..|parts| - 1]) + RenderPart(parts[|parts| - 1])
  }

  /** The chord names of the parts, in order. */
  function Chords(parts: seq<Part>): seq<string> {
    if parts == [] then []
    else Chords(parts[..|parts| - 1]) + (var p := parts[|parts| - 1]; if p.chord.Some? then [p.chord.value] else [])
  }

  /** The texts of the parts, concatenated. */
  function Texts(parts: seq<Part>): string {
    if parts == [] then [] else Texts(parts[..|parts| - 1]) + parts[|parts| - 1].text
  }

  /** Where the first marker of `line` starts, or its length when it has none. */
  function FirstMarker(line: string): (k: nat)
    ensures k <= |line|
  {
    match Find(line, 0, false)
    case Some(i) => i
    case None => |line|
  }

  /** `extractChords(lyrics)`: the distinct names of the markers in `lyrics`, in order of
      first occurrence; `[]` when the regex finds no marker. */
  function ExtractChords(lyrics: string): (r: seq<string>)
    ensures forall c :: c in r <==> c in Names(lyrics, false)
    ensures forall i, j :: 0 <= i < j < |r| ==> r[i] != r[j]
    ensures Names(lyrics, false) == [] ==> r == []
  {
    Seqs.Dedup(Names(lyrics, false))
  }

  /** `parseLine(line)`: the `regex.exec` loop, which for each marker peeks at the next one
      to find where the marker's text ends, then restores `regex.lastIndex`. */
  method ParseLine(line: string) returns (parts: seq<Part>)
    ensures Render(parts) == line
    ensures Chords(parts) == Names(line, false)
    ensures Texts(parts) == Unmark(line, false)
    ensures parts == [] <==> line == []
    ensures forall k :: 0 < k < |parts| ==> parts[k].chord.Some?
    ensures parts != [] ==> (parts[0].chord.None? <==> FirstMarker(line) > 0)
    ensures parts != [] && parts[0].chord.None? ==> parts[0].text == line[..FirstMarker(line)]
    ensures Names(line, false) == [] && line != [] ==> parts == [Part(None, line)]
    ensures Seqs.Dedup(Chords(parts)) == ExtractChords(line)
  {
    parts := [];
    var lastIndex: nat := 0;
    var regexLastIndex: nat := 0;
    var m := Find(line, regexLastIndex, false);
    Started(line);
    while m.Some?
      invariant regexLastIndex <= lastIndex <= |line|
      invariant m == Find(line, lastIndex, false)
      invariant Consumed(line, parts, lastIndex)
      decreases |line| - lastIndex
    {
      var index := m.value;
      var chordEnd := MatchEnd(line, index, false);
      regexLastIndex := chordEnd;
      if index > lastIndex {
        SkipToMatch(line, parts, lastIndex, index);
        parts := parts + [Part(None, line[lastIndex..index])];
      }
      // the peek: a failing exec resets lastIndex to 0, a match leaves it after the match
      var nextMatch := Find(line, regexLastIndex, false);
      regexLastIndex := if nextMatch.Some? then MatchEnd(line, nextMatch.value, false) else 0;
      var textEnd := if nextMatch.Some? then nextMatch.value else |line|;
      regexLastIndex := chordEnd;
      assert textEnd == PartEnd(line, index);
      SkipMarker(line, parts, index);
      parts := parts + [Part(Some(MarkerName(line[index..], false)), line[chordEnd..textEnd])];
      lastIndex := textEnd;
      m := Find(line, regexLastIndex, false);
    }
    if lastIndex < |line| {
      SkipTail(line, parts, lastIndex);
      parts := parts + [Part(None, line[lastIndex..])];
    }
    if |parts| == 0 && |line| > 0 {
      assert false;
    }
    Complete(line, parts);
  }

  /** Where the text after position `from` ends: at the next match, or at the end of the line. */
  function TextEnd(line: string, from: nat): (t: nat)
    requires from <= |line|
    ensures from <= t <= |line|
    ensures t < |line| ==> Find(line, from, false) == Some(t)
    ensures t == |line| ==> Find(line, from, false).None?
  {
    match Find(line, from, false)
    case Some(i) => i
    case None => |line|
  }

  /** What the loop of `ParseLine` has established once the line is consumed up to `lastIndex`.
      After the first part, `lastIndex` always sits on a match or at the end of the line. */
  ghost predicate Consumed(line: string, parts: seq<Part>, lastIndex: nat)
    requires lastIndex <= |line|
  {
    && Render(parts) == line[..lastIndex]
    && Chords(parts) + Names(line[lastIndex..], false) == Names(line, false)
    && Texts(parts) + Unmark(line[lastIndex..], false) == Unmark(line, false)
    && (parts == [] <==> lastIndex == 0)
    && (parts != [] ==> TextEnd(line, lastIndex) == lastIndex)
    && (forall k :: 0 < k < |parts| ==> parts[k].chord.Some?)
    && (parts != [] ==> (parts[0].chord.None? <==> FirstMarker(line) > 0))
    && (parts != [] && parts[0].chord.None? ==> parts[0].text == line[..FirstMarker(line)])
  }

  lemma Started(line: string)
    ensures Consumed(line, [], 0)
  {
    assert line[0..] == line;
  }

  lemma AppendPart(parts: seq<Part>, p: Part)
    ensures Render(parts + [p]) == Render(parts) + RenderPart(p)
    ensures Chords(parts + [p]) == Chords(parts) + (if p.chord.Some? then [p.chord.value] else [])
    ensures Texts(parts + [p]) == Texts(parts) + p.text
  {
    assert (parts + [p])[..|parts|] == parts;
  }

  /** The scan from `from` skips to the next match: it finds the same markers as the scan from
      there, and the deletion keeps the text in between. */
  lemma SkipScan(line: string, from: nat)
    requires from <= |line|
    ensures Names(line[from..], false) == Names(line[TextEnd(line, from)..], false)
    ensures Unmark(line[from..], false) == line[from..TextEnd(line, from)] + Unmark(line[TextEnd(line, from)..], false)
    ensures Find(line, TextEnd(line, from), false) == Find(line, from, false)
  {
    var t := TextEnd(line, from);
    if t < |line| {
      SkipToHit(line, from, t);
    } else {
      NamesFrom(line, from, false);
      UnmarkFrom(line, from, false);
      assert line[t..] == [];
    }
  }

  /** The scan from `from` and the scan from the next match `t` see the same matches. */
  lemma SkipToHit(line: string, from: nat, t: nat)
    requires from <= t < |line| && Find(line, from, false) == Some(t)
    ensures Names(line[from..], false) == Names(line[t..], false)
    ensures Unmark(line[from..], false) == line[from..t] + Unmark(line[t..], false)
    ensures Find(line, t, false) == Find(line, from, false)
  {
    FindHere(line, t, false);
    SameNames(line, from, t);
    SameUnmark(line, from, t);
  }

  lemma SameNames(line: string, from: nat, t: nat)
    requires from <= t < |line| && Find(line, from, false) == Some(t) && Find(line, t, false) == Some(t)
    ensures Names(line[from..], false) == Names(line[t..], false)
  {
    NamesFrom(line, from, false);
    NamesFrom(line, t, false);
  }

  lemma SameUnmark(line: string, from: nat, t: nat)
    requires from <= t < |line| && Find(line, from, false) == Some(t) && Find(line, t, false) == Some(t)
    ensures Unmark(line[from..], false) == line[from..t] + Unmark(line[t..], false)
  {
    var rest := Unmark(line[MatchEnd(line, t, false)..], false);
    UnmarkFrom(line, from, false);
    assert UnmarkSplits(line, from, false);
    assert Unmark(line[from..], false) == line[from..t] + rest;
    UnmarkFrom(line, t, false);
    assert UnmarkSplits(line, t, false);
    assert Unmark(line[t..], false) == line[t..t] + rest;
    assert line[t..t] + rest == rest;
  }

  /** Text before the first match, or the whole line when it has none, becomes the one
      chordless part; it can only come first. */
  lemma SkipPlain(line: string, parts: seq<Part>, lastIndex: nat)
    requires lastIndex <= |line| && Consumed(line, parts, lastIndex)
    requires lastIndex < TextEnd(line, lastIndex)
    ensures parts == [] && lastIndex == 0
    ensures Consumed(line, [Part(None, line[..TextEnd(line, 0)])], TextEnd(line, 0))
  {
    var t := TextEnd(line, 0);
    var q := [Part(None, line[..t])];
    AppendPart([], q[0]);
    assert [] + q == q;
    SkipScan(line, 0);
    assert line[0..] == line && line[0..t] == line[..t];
    if t < |line| {
      FindHere(line, t, false);
    }
    assert FirstMarker(line) == t;
  }

  /** The loop's plain part: the text before the first match. */
  lemma SkipToMatch(line: string, parts: seq<Part>, lastIndex: nat, index: nat)
    requires lastIndex < index < |line| && Consumed(line, parts, lastIndex)
    requires Find(line, lastIndex, false) == Some(index)
    ensures Consumed(line, parts + [Part(None, line[lastIndex..index])], index)
  {
    SkipPlain(line, parts, lastIndex);
    assert [] + [Part(None, line[..index])] == parts + [Part(None, line[lastIndex..index])];
  }

  /** The final plain part: a line without any match. */
  lemma SkipTail(line: string, parts: seq<Part>, lastIndex: nat)
    requires lastIndex < |line| && Consumed(line, parts, lastIndex)
    requires Find(line, lastIndex, false).None?
    ensures Consumed(line, parts + [Part(None, line[lastIndex..])], |line|)
  {
    SkipPlain(line, parts, lastIndex);
    assert TextEnd(line, 0) == |line|;
    assert line[..|line|] == line[lastIndex..];
    assert [] + [Part(None, line[..|line|])] == parts + [Part(None, line[lastIndex..])];
  }

  /** The part a match at `index` opens: its chord and the text up to the next match. */
  function MarkerPart(line: string, index: nat): Part
    requires index < |line| && MarkerLength(line[index..], false) > 0
  {
    var e := MatchEnd(line, index, false);
    Part(Some(MarkerName(line[index..], false)), line[e..TextEnd(line, e)])
  }

  /** Where the text of the part a match at `index` opens ends. */
  function PartEnd(line: string, index: nat): (t: nat)
    requires index < |line| && MarkerLength(line[index..], false) > 0
    ensures index < t <= |line|
  {
    TextEnd(line, MatchEnd(line, index, false))
  }

  /** A marker and the text up to the next match become one part with a chord. */
  lemma SkipMarker(line: string, parts: seq<Part>, index: nat)
    requires index < |line| && MarkerLength(line[index..], false) > 0
    requires Consumed(line, parts, index)
    ensures Find(line, PartEnd(line, index), false) == Find(line, MatchEnd(line, index, false), false)
    ensures Consumed(line, parts + [MarkerPart(line, index)], PartEnd(line, index))
  {
    MarkerRender(line, parts, index);
    MarkerChords(line, parts, index);
    MarkerTexts(line, parts, index);
    PartEndOnMatch(line, index);
    ChordedAfterFirst(parts, MarkerPart(line, index));
    FirstAfterMarker(line, parts, MarkerPart(line, index), index);
  }

  /** A part with a chord appended after a chordless first part leaves it first; appended to
      nothing, it comes first exactly when the line starts with a match. */
  lemma FirstAfterMarker(line: string, parts: seq<Part>, p: Part, index: nat)
    requires index < |line| && MarkerLength(line[index..], false) > 0
    requires parts == [] ==> index == 0
    requires p.chord.Some?
    requires parts != [] ==> (parts[0].chord.None? <==> FirstMarker(line) > 0)
    requires parts != [] && parts[0].chord.None? ==> parts[0].text == line[..FirstMarker(line)]
    ensures (parts + [p])[0].chord.None? <==> FirstMarker(line) > 0
    ensures (parts + [p])[0].chord.None? ==> (parts + [p])[0].text == line[..FirstMarker(line)]
  {
    if parts == [] {
      FindHere(line, index, false);
    } else {
      assert (parts + [p])[0] == parts[0];
    }
  }

  /** The text of a part ends where the next exec finds its match. */
  lemma PartEndOnMatch(line: string, index: nat)
    requires index < |line| && MarkerLength(line[index..], false) > 0
    ensures Find(line, PartEnd(line, index), false) == Find(line, MatchEnd(line, index, false), false)
    ensures TextEnd(line, PartEnd(line, index)) == PartEnd(line, index)
  {
    var t := PartEnd(line, index);
    SkipScan(line, MatchEnd(line, index, false));
    if t < |line| {
      FindHere(line, t, false);
    }
  }

  lemma ChordedAfterFirst(parts: seq<Part>, p: Part)
    requires forall k :: 0 < k < |parts| ==> parts[k].chord.Some?
    requires p.chord.Some?
    ensures forall k :: 0 < k < |parts + [p]| ==> (parts + [p])[k].chord.Some?
  {
    var q := parts + [p];
    forall k | 0 < k < |q|
      ensures q[k].chord.Some?
    {
      if k < |parts| {
        assert q[k] == parts[k];
      }
    }
  }

  lemma MarkerRender(line: string, parts: seq<Part>, index: nat)
    requires index < |line| && MarkerLength(line[index..], false) > 0
    requires Render(parts) == line[..index]
    ensures Render(parts + [MarkerPart(line, index)]) == line[..PartEnd(line, index)]
  {
    var p := MarkerPart(line, index);
    AppendPart(parts, p);
    assert RenderPart(p) == "[" + MarkerName(line[index..], false) + "]" + line[MatchEnd(line, index, false)..PartEnd(line, index)];
    MarkerSlices(line, index, PartEnd(line, index));
  }

  lemma MarkerChords(line: string, parts: seq<Part>, index: nat)
    requires index < |line| && MarkerLength(line[index..], false) > 0
    requires Chords(parts) + Names(line[index..], false) == Names(line, false)
    ensures Chords(parts + [MarkerPart(line, index)]) + Names(line[PartEnd(line, index)..], false) == Names(line, false)
  {
    AppendPart(parts, MarkerPart(line, index));
    NamesAtMarker(line, index);
    Seqs.AppendAssoc(Chords(parts), [MarkerName(line[index..], false)], Names(line[PartEnd(line, index)..], false));
  }

  lemma MarkerTexts(line: string, parts: seq<Part>, index: nat)
    requires index < |line| && MarkerLength(line[index..], false) > 0
    requires Texts(parts) + Unmark(line[index..], false) == Unmark(line, false)
    ensures Texts(parts + [MarkerPart(line, index)]) + Unmark(line[PartEnd(line, index)..], false) == Unmark(line, false)
  {
    AppendPart(parts, MarkerPart(line, index));
    UnmarkAtMarker(line, index);
    Seqs.AppendAssoc(Texts(parts), MarkerPart(line, index).text, Unmark(line[PartEnd(line, index)..], false));
  }

  /** The scan from a match finds its marker, then what the scan from the end of its text finds. */
  lemma NamesAtMarker(line: string, index: nat)
    requires index < |line| && MarkerLength(line[index..], false) > 0
    ensures Names(line[index..], false) == [MarkerName(line[index..], false)] + Names(line[PartEnd(line, index)..], false)
  {
    FindHere(line, index, false);
    NamesFrom(line, index, false);
    SkipScan(line, MatchEnd(line, index, false));
  }

  /** Deleting the markers from a match on leaves the match's text, then the rest. */
  lemma UnmarkAtMarker(line: string, index: nat)
    requires index < |line| && MarkerLength(line[index..], false) > 0
    ensures Unmark(line[index..], false) == MarkerPart(line, index).text + Unmark(line[PartEnd(line, index)..], false)
  {
    FindHere(line, index, false);
    UnmarkFrom(line, index, false);
    assert line[index..index] == [];
    SkipScan(line, MatchEnd(line, index, false));
  }

  /** Once the whole line is consumed, the parts are what `ParseLine` promises. */
  lemma Complete(line: string, parts: seq<Part>)
    requires Consumed(line, parts, |line|)
    ensures Render(parts) == line
    ensures Chords(parts) == Names(line, false)
    ensures Texts(parts) == Unmark(line, false)
    ensures parts == [] <==> line == []
    ensures Names(line, false) == [] && line != [] ==> parts == [Part(None, line)]
  {
    assert line[|line|..] == [] && line[..|line|] == line;
    if Names(line, false) == [] && line != [] {
      OnlyPlain(parts, line);
    }
  }

  /** A line without markers is rendered by one plain part. */
  lemma OnlyPlain(parts: seq<Part>, line: string)
    requires Render(parts) == line && line != [] && Chords(parts) == []
    requires forall k :: 0 < k < |parts| ==> parts[k].chord.Some?
    ensures parts == [Part(None, line)]
  {
    ChordsCount(parts);
    var p := parts[0];
    assert parts == [p];
    assert p.chord.None? by {
      assert parts[..0] == [];
    }
    assert p.text == line by {
      assert parts[..0] == [];
      assert Render(parts) == RenderPart(p);
    }
  }

  /** When every part after the first has a chord, all but at most one part contribute a chord. */
  lemma {:induction false} ChordsCount(parts: seq<Part>)
    requires forall k :: 0 < k < |parts| ==> parts[k].chord.Some?
    ensures |Chords(parts)| + 1 >= |parts|
  {
    if |parts| > 1 {
      var init := parts[..|parts| - 1];
      assert forall k :: 0 < k < |init| ==> init[k] == parts[k];
      ChordsCount(init);
    }
  }

  /** The slices a loop iteration appends, put together, are the line up to the next match. */
  lemma MarkerSlices(line: string, index: nat, textEnd: nat)
    requires index < |line| && MarkerLength(line[index..], false) > 0
    requires MatchEnd(line, index, false) <= textEnd <= |line|
    ensures line[..index] + ("[" + MarkerName(line[index..], false) + "]" + line[MatchEnd(line, index, false)..textEnd])
      == line[..textEnd]
  {
    var chordEnd := MatchEnd(line, index, false);
    var t := line[index..];
    assert line[index..chordEnd] == t[..MarkerLength(t, false)];
    assert t[..MarkerLength(t, false)] == "[" + MarkerName(t, false) + "]";
  }
}
