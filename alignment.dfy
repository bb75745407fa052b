/**
 * The aligned line of a chord row and its lyric row (parse-song.cjs lines 77-124): each
 * chord is placed on the lyric line, and the chords are written into the lyric as `[Name]`
 * markers from the last to the first, so that earlier insertions do not shift later ones.
 */
module Alignment {
  import opened Wrappers
  import opened JsText
  import opened Snapping
  import opened Markers
  import ChordRow
  import Seqs

  /** `{ name, pos }` of `mappedChords`. */
  datatype Placed = Placed(name: string, pos: nat)

  /** What `chords.map` makes of one chord (lines 88-114). */
  function PlaceChord(lyrics: string, c: ChordRow.Chord, totalChordChars: nat): Placed {
    Placed(c.name, Placement(lyrics, MapPosition(c.rawPos, totalChordChars, |lyrics|)))
  }

  function Placements(lyrics: string, chords: seq<ChordRow.Chord>, totalChordChars: nat): seq<Placed> {
    seq(|chords|, i requires 0 <= i < |chords| => PlaceChord(lyrics, chords[i], totalChordChars))
  }

  /** The map over the chords (lines 88-114), given the lyric's word starts in increasing order. */
  method PlaceChords(lyrics: string, wordStarts: seq<nat>, chords: seq<ChordRow.Chord>, totalChordChars: nat)
    returns (mappedChords: seq<Placed>)
    requires Increasing(wordStarts)
    requires forall k: nat :: k in wordStarts <==> IsWordStart(lyrics, k)
    ensures mappedChords == Placements(lyrics, chords, totalChordChars)
  {
    var lyricsLen := |lyrics|;
    assert 0 in wordStarts;
    mappedChords := [];
    for i := 0 to |chords|
      invariant |mappedChords| == i
      invariant forall k :: 0 <= k < i ==> mappedChords[k] == PlaceChord(lyrics, chords[k], totalChordChars)
    {
      var c := chords[i];
      var mappedPos := MapPosition(c.rawPos, totalChordChars, lyricsLen);
      var bestWordStart, bestDist := Snap(wordStarts, mappedPos);
      var finalPos := if bestDist.Finite? && bestDist.n <= SnapThreshold then bestWordStart else mappedPos;
      SnapIsNearest(lyrics, wordStarts, mappedPos, bestWordStart);
      mappedChords := mappedChords + [Placed(c.name, finalPos)];
    }
  }

  lemma SnapIsNearest(lyrics: string, wordStarts: seq<nat>, mappedPos: nat, bestWordStart: nat)
    requires Increasing(wordStarts)
    requires forall k: nat :: k in wordStarts <==> IsWordStart(lyrics, k)
    requires exists j: nat :: FirstNearest(wordStarts, mappedPos, j) && wordStarts[j] == bestWordStart
    ensures bestWordStart == Nearest(lyrics, mappedPos)
  {
    var j: nat :| FirstNearest(wordStarts, mappedPos, j) && wordStarts[j] == bestWordStart;
    FirstNearestIsNearest(lyrics, wordStarts, mappedPos, j);
  }

  /** The chord marker the line carries. */
  function Marker(name: string): string {
    "[" + name + "]"
  }

  /** Line 122: the marker written at the chord's position, capped at the lyric's length. */
  function Insert(chordPro: string, c: Placed, lyricsLen: nat): (r: string)
    requires lyricsLen <= |chordPro|
    ensures |r| == |chordPro| + |c.name| + 2
  {
    var insertPos := Min(c.pos, lyricsLen);
    chordPro[..insertPos] + Marker(c.name) + chordPro[insertPos..]
  }

  /** The reverse insertion loop's result: the first chord is inserted last. */
  function InsertAll(lyrics: string, cs: seq<Placed>): (r: string)
    ensures |r| >= |lyrics|
  {
    if cs == [] then lyrics else Insert(InsertAll(lyrics, cs[1..]), cs[0], |lyrics|)
  }

  /** The insertion loop (lines 118-123). */
  method InsertMarkers(lyrics: string, mappedChords: seq<Placed>) returns (chordPro: string)
    ensures chordPro == InsertAll(lyrics, mappedChords)
  {
    chordPro := lyrics;
    var i := |mappedChords|;
    while i > 0
      invariant 0 <= i <= |mappedChords|
      invariant chordPro == InsertAll(lyrics, mappedChords[i..])
    {
      i := i - 1;
      var c := mappedChords[i];
      var insertPos := Min(c.pos, |lyrics|);
      assert mappedChords[i..][1..] == mappedChords[i + 1..];
      chordPro := chordPro[..insertPos] + "[" + c.name + "]" + chordPro[insertPos..];
    }
  }

  function Max(a: nat, b: nat): nat { if a <= b then b else a }

  /** The line written left to right: the lyric up to each chord's (capped) position, then
      the chord's marker; a position before the previous chord's counts as the previous one. */
  function Layout(lyrics: string, cs: seq<Placed>, from: nat): string
    requires from <= |lyrics|
  {
    if cs == [] then lyrics[from..]
    else
      var k := Max(from, Min(cs[0].pos, |lyrics|));
      lyrics[from..k] + (Marker(cs[0].name) + Layout(lyrics, cs[1..], k))
  }

  predicate Ordered(cs: seq<Placed>) {
    forall i, j :: 0 <= i < j < |cs| ==> cs[i].pos <= cs[j].pos
  }

  /** For chords in order of position, inserting from the last to the first writes the
      same line as the left-to-right layout. */
  lemma {:induction false} InsertLayout(lyrics: string, cs: seq<Placed>, from: nat)
    requires Ordered(cs)
    requires from <= |lyrics|
    requires cs != [] ==> from <= Min(cs[0].pos, |lyrics|)
    ensures InsertAll(lyrics, cs) == lyrics[..from] + Layout(lyrics, cs, from)
  {
    if cs == [] {
    } else {
      var c, rest := cs[0], cs[1..];
      var k := Min(c.pos, |lyrics|);
      assert rest != [] ==> rest[0] == cs[1];
      InsertLayout(lyrics, rest, k);
      var L := Layout(lyrics, rest, k);
      var t := InsertAll(lyrics, rest);
      assert t[..k] == lyrics[..k] && t[k..] == L;
      assert lyrics[..k] == lyrics[..from] + lyrics[from..k];
      Seqs.AppendAssoc(lyrics[..from], lyrics[from..k], Marker(c.name) + L);
      Seqs.AppendAssoc(lyrics[..k], Marker(c.name), L);
    }
  }

  function PlacedNames(cs: seq<Placed>): seq<string> {
    seq(|cs|, i requires 0 <= i < |cs| => cs[i].name)
  }

  /** Reading the laid-out line back: deleting its markers gives the lyric, provided the
      lyric has no `[` of its own and every name is one the marker regex accepts. */
  lemma {:induction false} LayoutUnmark(lyrics: string, cs: seq<Placed>, from: nat, slash: bool)
    requires from <= |lyrics|
    requires '[' !in lyrics
    requires forall i :: 0 <= i < |cs| ==> IsToken(cs[i].name, slash)
    ensures Unmark(Layout(lyrics, cs, from), slash) == lyrics[from..]
  {
    if cs == [] {
      PlainTail(lyrics, from, slash);
    } else {
      var k := LayoutStep(lyrics, cs, from);
      LayoutUnmark(lyrics, cs[1..], k, slash);
      UnmarkLayoutStep(lyrics, from, k, cs[0].name, Layout(lyrics, cs[1..], k), Layout(lyrics, cs, from), slash);
    }
  }

  /** The text after the last chord has nothing to delete. */
  lemma PlainTail(lyrics: string, from: nat, slash: bool)
    requires from <= |lyrics| && '[' !in lyrics
    ensures Unmark(lyrics[from..], slash) == lyrics[from..]
    ensures Names(lyrics[from..], slash) == []
  {
    PlainSlice(lyrics, from, |lyrics|);
    ScanPlain(lyrics[from..], [], slash);
    assert lyrics[from..] + [] == lyrics[from..];
  }

  /** Deleting the markers of the text up to a chord, its marker and the line after it. */
  lemma UnmarkLayoutStep(lyrics: string, from: nat, k: nat, name: string, after: string, line: string, slash: bool)
    requires from <= k <= |lyrics| && '[' !in lyrics && IsToken(name, slash)
    requires line == lyrics[from..k] + (Marker(name) + after)
    requires Unmark(after, slash) == lyrics[k..]
    ensures Unmark(line, slash) == lyrics[from..]
  {
    PlainSlice(lyrics, from, k);
    MarkerAfterPlain(lyrics[from..k], name, after, slash);
    assert lyrics[from..] == lyrics[from..k] + lyrics[k..];
  }

  /** Under the same conditions the markers of the laid-out line are the chord names, in order. */
  lemma {:induction false} LayoutNames(lyrics: string, cs: seq<Placed>, from: nat, slash: bool)
    requires from <= |lyrics|
    requires '[' !in lyrics
    requires forall i :: 0 <= i < |cs| ==> IsToken(cs[i].name, slash)
    ensures Names(Layout(lyrics, cs, from), slash) == PlacedNames(cs)
  {
    if cs == [] {
      PlainTail(lyrics, from, slash);
    } else {
      var k := LayoutStep(lyrics, cs, from);
      LayoutNames(lyrics, cs[1..], k, slash);
      NamesLayoutStep(lyrics, from, k, cs[0].name, Layout(lyrics, cs[1..], k), Layout(lyrics, cs, from), slash);
      assert PlacedNames(cs) == [cs[0].name] + PlacedNames(cs[1..]);
    }
  }

  lemma NamesLayoutStep(lyrics: string, from: nat, k: nat, name: string, after: string, line: string, slash: bool)
    requires from <= k <= |lyrics| && '[' !in lyrics && IsToken(name, slash)
    requires line == lyrics[from..k] + (Marker(name) + after)
    ensures Names(line, slash) == [name] + Names(after, slash)
  {
    PlainSlice(lyrics, from, k);
    MarkerAfterPlain(lyrics[from..k], name, after, slash);
  }

  /** One step of the layout: the text up to the first chord's position, then its marker. */
  lemma LayoutStep(lyrics: string, cs: seq<Placed>, from: nat) returns (k: nat)
    requires from <= |lyrics| && cs != []
    ensures from <= k <= |lyrics|
    ensures Layout(lyrics, cs, from) == lyrics[from..k] + (Marker(cs[0].name) + Layout(lyrics, cs[1..], k))
  {
    k := Max(from, Min(cs[0].pos, |lyrics|));
  }

  lemma PlainSlice(lyrics: string, from: nat, to: nat)
    requires from <= to <= |lyrics| && '[' !in lyrics
    ensures '[' !in lyrics[from..to]
  {
    assert forall c :: c in lyrics[from..to] ==> c in lyrics;
  }

  /** Plain text, a marker and what follows: the scan keeps the text and finds the marker. */
  lemma MarkerAfterPlain(t: string, name: string, rest: string, slash: bool)
    requires '[' !in t && IsToken(name, slash)
    ensures Unmark(t + (Marker(name) + rest), slash) == t + Unmark(rest, slash)
    ensures Names(t + (Marker(name) + rest), slash) == [name] + Names(rest, slash)
  {
    ScanPlain(t, Marker(name) + rest, slash);
    ScanMarker(name, rest, slash);
  }

  /** The aligned line of lines 77-123. */
  function Aligned(lyrics: string, chords: seq<ChordRow.Chord>, totalChordChars: nat): string {
    InsertAll(lyrics, Placements(lyrics, chords, totalChordChars))
  }

  /** Lines 77-123: word starts, placement and insertion. */
  method AlignLine(lyrics: string, chords: seq<ChordRow.Chord>, totalChordChars: nat) returns (chordPro: string)
    ensures chordPro == Aligned(lyrics, chords, totalChordChars)
  {
    var wordStarts := WordStarts(lyrics);
    var mappedChords := PlaceChords(lyrics, wordStarts, chords, totalChordChars);
    chordPro := InsertMarkers(lyrics, mappedChords);
  }

  predicate NonDecreasing(chords: seq<ChordRow.Chord>) {
    forall i, j :: 0 <= i < j < |chords| ==> chords[i].rawPos <= chords[j].rawPos
  }

  /** Chords in chord-line order stay in that order once placed. */
  lemma PlacementsOrdered(lyrics: string, chords: seq<ChordRow.Chord>, totalChordChars: nat)
    requires NonDecreasing(chords)
    ensures Ordered(Placements(lyrics, chords, totalChordChars))
  {
    var ps := Placements(lyrics, chords, totalChordChars);
    forall i, j | 0 <= i < j < |ps|
      ensures ps[i].pos <= ps[j].pos
    {
      MapMonotone(chords[i].rawPos, chords[j].rawPos, totalChordChars, |lyrics|);
      PlacementMonotone(lyrics, MapPosition(chords[i].rawPos, totalChordChars, |lyrics|),
        MapPosition(chords[j].rawPos, totalChordChars, |lyrics|));
    }
  }

  /** The aligned line of a chord row: the chords appear in the lyric in their chord-line
      order, so deleting the markers gives the lyric back and reading them gives the chord
      names in order; each chord sits where it was placed. */
  lemma AlignedRoundTrip(lyrics: string, chords: seq<ChordRow.Chord>, totalChordChars: nat, slash: bool)
    requires NonDecreasing(chords)
    requires '[' !in lyrics
    requires forall i :: 0 <= i < |chords| ==> IsToken(chords[i].name, slash)
    ensures Aligned(lyrics, chords, totalChordChars) == Layout(lyrics, Placements(lyrics, chords, totalChordChars), 0)
    ensures Unmark(Aligned(lyrics, chords, totalChordChars), slash) == lyrics
    ensures Names(Aligned(lyrics, chords, totalChordChars), slash) == seq(|chords|, i requires 0 <= i < |chords| => chords[i].name)
  {
    var ps := Placements(lyrics, chords, totalChordChars);
    PlacementsOrdered(lyrics, chords, totalChordChars);
    InsertLayout(lyrics, ps, 0);
    assert lyrics[..0] + Layout(lyrics, ps, 0) == Layout(lyrics, ps, 0);
    PlacementsNames(lyrics, chords, totalChordChars, slash);
    LayoutUnmark(lyrics, ps, 0, slash);
    LayoutNames(lyrics, ps, 0, slash);
    assert lyrics[0..] == lyrics;
  }

  /** Placing keeps the chords' names. */
  lemma PlacementsNames(lyrics: string, chords: seq<ChordRow.Chord>, totalChordChars: nat, slash: bool)
    requires forall i :: 0 <= i < |chords| ==> IsToken(chords[i].name, slash)
    ensures forall i :: 0 <= i < |chords| ==> IsToken(Placements(lyrics, chords, totalChordChars)[i].name, slash)
    ensures PlacedNames(Placements(lyrics, chords, totalChordChars)) == seq(|chords|, i requires 0 <= i < |chords| => chords[i].name)
  {
  }

  /** A chord row `C` at width 0 and `G` at width 10 of 20, over "I love you very much": the
      `G` maps to position 10, a space, and snaps one character on to the word "very". */
  lemma AlignedExample()
    ensures Aligned("I love you very much", [ChordRow.Chord("C", 0), ChordRow.Chord("G", 10)], 20)
      == "[C]" + "I love you [G]very much"
  {
    PlacementsExample();
    InsertExample();
  }

  lemma PlacementsExample()
    ensures Placements("I love you very much", [ChordRow.Chord("C", 0), ChordRow.Chord("G", 10)], 20)
      == [Placed("C", 0), Placed("G", 11)]
  {
    var s := "I love you very much";
    assert MapPosition(10, 20, 20) == 10;
    assert IsWordStart(s, 11) && !IsWordStart(s, 10) && !IsWordStart(s, 9) && !IsWordStart(s, 8);
    assert IsWordStart(s, 7);
    assert PrevStart(s, 10) == 7;
    assert NextStart(s, 10) == Some(11);
    assert Placement(s, 10) == 11;
    assert Placement(s, 0) == 0;
  }

  lemma InsertExample()
    ensures InsertAll("I love you very much", [Placed("C", 0), Placed("G", 11)]) == "[C]" + "I love you [G]very much"
  {
    var ps := [Placed("C", 0), Placed("G", 11)];
    assert ps[1..] == [Placed("G", 11)];
    InsertExampleG();
    var t := "I love you [G]very much";
    assert InsertAll("I love you very much", ps) == Insert(t, Placed("C", 0), 20);
    InsertFront(t, "C", 20);
    assert "[" + "C" + "]" == "[C]";
  }

  lemma InsertFront(t: string, name: string, lyricsLen: nat)
    requires lyricsLen <= |t|
    ensures Insert(t, Placed(name, 0), lyricsLen) == "[" + name + "]" + t
  {
    assert t[..0] == [] && t[0..] == t;
  }

  lemma InsertExampleG()
    ensures InsertAll("I love you very much", [Placed("G", 11)]) == "I love you [G]very much"
  {
    var s := "I love you very much";
    assert [Placed("G", 11)][1..] == [];
    assert s[..11] == "I love you " && s[11..] == "very much";
  }
}
