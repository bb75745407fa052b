/**
 * The row loop of parse-song.cjs (lines 18-147): every row of every table of the song page
 * yields at most one line of the song sheet. A section header yields an empty line, a chord
 * row followed by a lyric row yields the lyric with the chords written into it (and the
 * lyric row is consumed), and a chord row without one yields its chord names alone.
 */
module SongSheet {
  import opened Wrappers
  import opened JsText
  import opened ChordRow
  import Lyric
  import Alignment
  import Markers
  import Seqs

  /** A `<tr>` as the loop's three regexes see it: the text after the section marker's
      `</span>` (line 26), the chord cell split around its spans (lines 34 and 52), and the
      content of the row's first `<td>` (line 39). */
  datatype Row = Row(section: Option<string>, chordCell: Option<seq<Piece>>, firstCell: Option<string>)

  /** `chords.map(c => '[' + c + ']').join(' ')` (lines 128 and 142). */
  function ChordOnlyLine(names: seq<string>): string {
    Join(Bracketed(names), " ")
  }

  function Bracketed(names: seq<string>): seq<string> {
    seq(|names|, i requires 0 <= i < |names| => Alignment.Marker(names[i]))
  }

  /** What one pass of the loop body emits, and the row it continues with. */
  datatype Step = Step(out: seq<string>, next: nat)

  /** The loop body on row `r` (lines 23-145). */
  function RowStep(rows: seq<Row>, r: nat): (s: Step)
    requires r < |rows|
    ensures r < s.next <= |rows| && |s.out| <= 1
    ensures s.next == r + 2 <==>
      && rows[r].section.None?
      && rows[r].chordCell.Some?
      && r + 1 < |rows|
      && Lyric.Accepted(rows[r + 1].firstCell)
      && |SpanNames(rows[r].chordCell.value)| > 0
    ensures s.next == r + 1 || s.next == r + 2
    ensures rows[r].section.Some? ==> (s.out == [""] <==> Trim(StripTags(rows[r].section.value)) != "")
    ensures rows[r].section.Some? ==> (s.out == [] <==> Trim(StripTags(rows[r].section.value)) == "")
    ensures rows[r].section.None? && rows[r].chordCell.None? ==> s.out == []
    ensures s.next == r + 2 ==>
      s.out == [Alignment.Aligned(Lyric.Normalise(rows[r + 1].firstCell.value), Located(rows[r].chordCell.value), Width(rows[r].chordCell.value))]
    ensures rows[r].section.None? && rows[r].chordCell.Some? && s.next == r + 1 ==>
      s.out == (if |SpanNames(rows[r].chordCell.value)| > 0 then [ChordOnlyLine(SpanNames(rows[r].chordCell.value))] else [])
  {
    var row := rows[r];
    if row.section.Some? then
      Step(if Trim(StripTags(row.section.value)) != "" then [""] else [], r + 1)
    else if row.chordCell.Some? then
      var pieces := row.chordCell.value;
      var lyricMatch := if r + 1 < |rows| then rows[r + 1].firstCell else None;
      if Lyric.Accepted(lyricMatch) then
        var chords := Located(pieces);
        if |chords| > 0 then Step([Alignment.Aligned(Lyric.Normalise(lyricMatch.value), chords, Width(pieces))], r + 2)
        else Step([], r + 1)
      else
        var names := SpanNames(pieces);
        Step(if |names| > 0 then [ChordOnlyLine(names)] else [], r + 1)
    else Step([], r + 1)
  }

  /** The lines the rows from `r` on contribute. */
  function TableLines(rows: seq<Row>, r: nat): seq<string>
    decreases |rows| - r
  {
    if r >= |rows| then [] else RowStep(rows, r).out + TableLines(rows, RowStep(rows, r).next)
  }

  /** The lines of all tables, in order: the `lines` array after the loop. */
  function SheetLines(tables: seq<seq<Row>>): seq<string> {
    if tables == [] then []
    else SheetLines(tables[..|tables| - 1]) + TableLines(tables[|tables| - 1], 0)
  }

  /** No row yields more than one line. */
  lemma {:induction false} TableLinesCount(rows: seq<Row>, r: nat)
    requires r <= |rows|
    ensures |TableLines(rows, r)| <= |rows| - r
    decreases |rows| - r
  {
    if r < |rows| {
      TableLinesCount(rows, RowStep(rows, r).next);
    }
  }

  /** The line of a chord row whose lyric row is accepted: deleting its markers gives the
      normalised lyric, and its markers are the chord names of the row in order, as long as
      the lyric has no `[` and the names are ones the reader's marker regex accepts. */
  lemma AlignedLineReadsBack(rows: seq<Row>, r: nat)
    requires r < |rows| && RowStep(rows, r).next == r + 2
    requires '[' !in Lyric.Normalise(rows[r + 1].firstCell.value)
    requires forall i :: 0 <= i < |SpanNames(rows[r].chordCell.value)| ==> Markers.IsToken(SpanNames(rows[r].chordCell.value)[i], false)
    ensures RowStep(rows, r).out == [Alignment.Aligned(Lyric.Normalise(rows[r + 1].firstCell.value), Located(rows[r].chordCell.value), Width(rows[r].chordCell.value))]
    ensures Markers.Unmark(RowStep(rows, r).out[0], false) == Lyric.Normalise(rows[r + 1].firstCell.value)
    ensures Markers.Names(RowStep(rows, r).out[0], false) == SpanNames(rows[r].chordCell.value)
  {
    var pieces := rows[r].chordCell.value;
    var chords := Located(pieces);
    LocatedNames(pieces);
    LocatedBounds(pieces);
    assert Alignment.NonDecreasing(chords) by {
      forall i, j | 0 <= i < j < |chords| ensures chords[i].rawPos <= chords[j].rawPos {
      }
    }
    Alignment.AlignedRoundTrip(Lyric.Normalise(rows[r + 1].firstCell.value), chords, Width(pieces), false);
  }

  /** The line of a chord row that has no lyric row reads back as the row's chord names, with
      single spaces left between them once the markers are deleted. */
  lemma ChordOnlyRowReadsBack(rows: seq<Row>, r: nat, slash: bool)
    requires r < |rows| && rows[r].section.None? && rows[r].chordCell.Some?
    requires RowStep(rows, r).next == r + 1
    requires SpanNames(rows[r].chordCell.value) != []
    requires forall i :: 0 <= i < |SpanNames(rows[r].chordCell.value)| ==> Markers.IsToken(SpanNames(rows[r].chordCell.value)[i], slash)
    ensures RowStep(rows, r).out == [ChordOnlyLine(SpanNames(rows[r].chordCell.value))]
    ensures Markers.Names(RowStep(rows, r).out[0], slash) == SpanNames(rows[r].chordCell.value)
    ensures Markers.Unmark(RowStep(rows, r).out[0], slash) == Spaces(|SpanNames(rows[r].chordCell.value)| - 1)
  {
    ChordOnlyNames(SpanNames(rows[r].chordCell.value), slash);
    ChordOnlyUnmark(SpanNames(rows[r].chordCell.value), slash);
  }

  function Spaces(n: nat): string {
    if n == 0 then [] else " " + Spaces(n - 1)
  }

  /** A chord-only line reads back as its chord names, provided they are names the marker
      regex accepts. */
  lemma {:induction false} ChordOnlyNames(names: seq<string>, slash: bool)
    requires names != []
    requires forall i :: 0 <= i < |names| ==> Markers.IsToken(names[i], slash)
    ensures Markers.Names(ChordOnlyLine(names), slash) == names
  {
    if |names| == 1 {
      SingleChord(names, slash);
    } else {
      ChordOnlyNames(names[1..], slash);
      var rest := JoinTail(names);
      MarkerThenSpace(names[0], rest, slash);
    }
  }

  /** Deleting the markers of a chord-only line leaves the single spaces between them. */
  lemma {:induction false} ChordOnlyUnmark(names: seq<string>, slash: bool)
    requires names != []
    requires forall i :: 0 <= i < |names| ==> Markers.IsToken(names[i], slash)
    ensures Markers.Unmark(ChordOnlyLine(names), slash) == Spaces(|names| - 1)
  {
    if |names| == 1 {
      SingleChord(names, slash);
    } else {
      ChordOnlyUnmark(names[1..], slash);
      UnmarkStep(names, slash);
    }
  }

  lemma SingleChord(names: seq<string>, slash: bool)
    requires |names| == 1 && Markers.IsToken(names[0], slash)
    ensures Markers.Names(ChordOnlyLine(names), slash) == names
    ensures Markers.Unmark(ChordOnlyLine(names), slash) == []
  {
    Markers.ScanMarker(names[0], [], slash);
    assert ChordOnlyLine(names) == "[" + names[0] + "]" + [];
  }

  lemma UnmarkStep(names: seq<string>, slash: bool)
    requires |names| > 1 && Markers.IsToken(names[0], slash)
    requires Markers.Unmark(ChordOnlyLine(names[1..]), slash) == Spaces(|names| - 2)
    ensures Markers.Unmark(ChordOnlyLine(names), slash) == Spaces(|names| - 1)
  {
    var rest := JoinTail(names);
    MarkerThenSpace(names[0], rest, slash);
  }

  /** A line of two or more chords is the first marker, a space and the line of the rest. */
  lemma JoinTail(names: seq<string>) returns (rest: string)
    requires |names| > 1
    ensures rest == ChordOnlyLine(names[1..])
    ensures ChordOnlyLine(names) == "[" + names[0] + "]" + (" " + rest)
  {
    assert Bracketed(names[1..]) == Bracketed(names)[1..];
    rest := ChordOnlyLine(names[1..]);
    Seqs.AppendAssoc("[" + names[0] + "]", " ", rest);
  }

  lemma MarkerThenSpace(name: string, rest: string, slash: bool)
    requires Markers.IsToken(name, slash)
    ensures Markers.Names("[" + name + "]" + (" " + rest), slash) == [name] + Markers.Names(rest, slash)
    ensures Markers.Unmark("[" + name + "]" + (" " + rest), slash) == " " + Markers.Unmark(rest, slash)
  {
    Markers.ScanMarker(name, " " + rest, slash);
    Markers.ScanPlain(" ", rest, slash);
  }

  /** The row loop (lines 18-147) over the tables of the song area, in order. */
  method ExtractLines(tables: seq<seq<Row>>) returns (lines: seq<string>)
    ensures lines == SheetLines(tables)
  {
    lines := [];
    for t := 0 to |tables|
      invariant lines == SheetLines(tables[..t])
    {
      var rows := tables[t];
      assert tables[..t + 1][..t] == tables[..t];
      var r := 0;
      while r < |rows|
        invariant r <= |rows|
        invariant lines + TableLines(rows, r) == SheetLines(tables[..t + 1])
        decreases |rows| - r
      {
        var out, next := ProcessRow(rows, r);
        Advance(rows, r, lines, lines + out);
        lines := lines + out;
        r := next;
      }
    }
    assert tables[..|tables|] == tables;
  }

  /** One pass of the loop body (lines 23-145): the lines it pushes and the row after it. */
  method ProcessRow(rows: seq<Row>, r: nat) returns (out: seq<string>, next: nat)
    requires r < |rows|
    ensures Step(out, next) == RowStep(rows, r)
  {
    var row := rows[r];
    out, next := [], r + 1;
    if row.section.Some? {
      var sectionText := Trim(StripTags(row.section.value));
      if sectionText != "" {
        out := [""];
      }
    } else if row.chordCell.Some? {
      out, next := ChordRowLines(rows, r);
    }
  }

  /** The chord-row branch (lines 31-144): the aligned lyric when the next row is taken as
      the lyric row, else the chord names alone. */
  method ChordRowLines(rows: seq<Row>, r: nat) returns (out: seq<string>, next: nat)
    requires r < |rows| && rows[r].section.None? && rows[r].chordCell.Some?
    ensures Step(out, next) == RowStep(rows, r)
  {
    var chordHtml := rows[r].chordCell.value;
    var lyricMatch := if r + 1 < |rows| then rows[r + 1].firstCell else None;
    var lyricText := if lyricMatch.Some? then Lyric.Normalise(lyricMatch.value) else "";
    var isChordOnlyLyrics := Lyric.IsChordOnly(lyricText);
    out, next := [], r + 1;
    if lyricMatch.Some? && !Contains(lyricMatch.value, "class=\"chords\"") && !isChordOnlyLyrics && |lyricText| > 0 {
      var chords, totalChordChars := LocateChords(chordHtml);
      var lyrics := Lyric.Normalise(lyricMatch.value);
      if lyrics != "" && |chords| > 0 {
        var chordPro := Alignment.AlignLine(lyrics, chords, totalChordChars);
        out, next := [chordPro], r + 2;
      } else if |chords| > 0 && lyrics == "" {
        assert false;
      }
    } else {
      var chords := CollectSpanNames(chordHtml);
      if |chords| > 0 {
        out := [ChordOnlyLine(chords)];
      }
    }
  }

  lemma Advance(rows: seq<Row>, r: nat, before: seq<string>, after: seq<string>)
    requires r < |rows|
    requires after == before + RowStep(rows, r).out
    ensures after + TableLines(rows, RowStep(rows, r).next) == before + TableLines(rows, r)
  {
    Seqs.AppendAssoc(before, RowStep(rows, r).out, TableLines(rows, RowStep(rows, r).next));
  }
}
