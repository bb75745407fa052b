/**
 * The chord cell of a chord row in parse-song.cjs. The cell's HTML, split around its
 * `<span>` elements, is a sequence of pieces: spans, whose trimmed content is a chord
 * name, and the filler between them. Each piece occupies a number of character units
 * on the chord line; a chord sits at the number of units before it (`rawPos`).
 */
module ChordRow {
  import opened JsText

  /** One piece of `chordHtml.split(/(<span[^>]*>.*?<\/span>)/)`: a span with its inner
      text, or the raw HTML between two spans. */
  datatype Piece = Span(inner: string) | Filler(raw: string)

  /** `{ name, rawPos }` of the chord accounting loop. */
  datatype Chord = Chord(name: string, rawPos: nat)

  /** The units a piece adds to `totalChordChars`: the trimmed name of a span; for filler,
      its `&nbsp;` entities plus the characters left once they and the tags are removed. */
  function Units(p: Piece): nat {
    match p
    case Span(inner) => |Trim(inner)|
    case Filler(raw) => CountNbsp(raw) + |StripTags(ReplaceNbsp(raw, ""))|
  }

  /** The width of a run of pieces: the sum of their units. */
  function Width(ps: seq<Piece>): nat {
    if ps == [] then 0 else Width(ps[..|ps| - 1]) + Units(ps[|ps| - 1])
  }

  /** The trimmed names of the spans, in order. */
  function SpanNames(ps: seq<Piece>): seq<string> {
    if ps == [] then []
    else SpanNames(ps[..|ps| - 1]) + (if ps[|ps| - 1].Span? then [Trim(ps[|ps| - 1].inner)] else [])
  }

  /** The chords of a cell: each span's trimmed name, at the width of the pieces before it. */
  function Located(ps: seq<Piece>): (cs: seq<Chord>)
    ensures |cs| == |SpanNames(ps)|
  {
    if ps == [] then []
    else
      var init := ps[..|ps| - 1];
      var p := ps[|ps| - 1];
      if p.Span? then Located(init) + [Chord(Trim(p.inner), Width(init))] else Located(init)
  }

  /** The chords carry the span names, in order. */
  lemma {:induction false} LocatedNames(ps: seq<Piece>)
    ensures forall i :: 0 <= i < |Located(ps)| ==> Located(ps)[i].name == SpanNames(ps)[i]
  {
    if ps != [] {
      LocatedNames(ps[..|ps| - 1]);
    }
  }

  /** Every chord fits in the row, and each one ends before the next begins, so `rawPos`
      never decreases and never exceeds `totalChordChars`. */
  lemma {:induction false} LocatedBounds(ps: seq<Piece>)
    ensures forall i :: 0 <= i < |Located(ps)| ==> Located(ps)[i].rawPos + |Located(ps)[i].name| <= Width(ps)
    ensures forall i, j :: 0 <= i < j < |Located(ps)| ==>
      Located(ps)[i].rawPos + |Located(ps)[i].name| <= Located(ps)[j].rawPos
  {
    if ps != [] {
      LocatedBounds(ps[..|ps| - 1]);
    }
  }

  /** Appending a span adds its name's length to the width and one chord at the old width. */
  lemma SnocSpan(ps: seq<Piece>, inner: string)
    ensures Width(ps + [Span(inner)]) == Width(ps) + |Trim(inner)|
    ensures Located(ps + [Span(inner)]) == Located(ps) + [Chord(Trim(inner), Width(ps))]
    ensures SpanNames(ps + [Span(inner)]) == SpanNames(ps) + [Trim(inner)]
  {
    assert (ps + [Span(inner)])[..|ps|] == ps;
  }

  /** Appending filler adds its units to the width and no chord. */
  lemma SnocFiller(ps: seq<Piece>, raw: string)
    ensures Width(ps + [Filler(raw)]) == Width(ps) + Units(Filler(raw))
    ensures Located(ps + [Filler(raw)]) == Located(ps)
    ensures SpanNames(ps + [Filler(raw)]) == SpanNames(ps)
  {
    assert (ps + [Filler(raw)])[..|ps|] == ps;
  }

  /** Widths add up over concatenation. */
  lemma {:induction false} WidthAppend(a: seq<Piece>, b: seq<Piece>)
    ensures Width(a + b) == Width(a) + Width(b)
    decreases |b|
  {
    if b == [] {
      assert a + b == a;
    } else {
      var b', p := b[..|b| - 1], b[|b| - 1];
      assert a + b == (a + b') + [p] && b == b' + [p];
      WidthAppend(a, b');
      match p
      case Span(inner) =>
        SnocSpan(a + b', inner);
        SnocSpan(b', inner);
      case Filler(raw) =>
        SnocFiller(a + b', raw);
        SnocFiller(b', raw);
    }
  }

  /** Each chord's `rawPos` counts everything before it: the span at piece `k` yields the
      chord after the chords of the spans before it, at the width of the pieces before it. */
  lemma {:induction false} LocatedAt(ps: seq<Piece>, k: nat)
    requires k < |ps| && ps[k].Span?
    ensures |SpanNames(ps[..k])| < |Located(ps)|
    ensures Located(ps)[|SpanNames(ps[..k])|] == Chord(Trim(ps[k].inner), Width(ps[..k]))
  {
    var init := ps[..|ps| - 1];
    assert ps == init + [ps[|ps| - 1]];
    if k == |ps| - 1 {
      SnocSpan(init, ps[k].inner);
    } else {
      assert init[..k] == ps[..k] && init[k] == ps[k];
      LocatedAt(init, k);
      match ps[|ps| - 1]
      case Span(inner) => SnocSpan(init, inner);
      case Filler(raw) => SnocFiller(init, raw);
    }
  }

  /** A span alone is one chord at position 0 whose length is the span's whole width. */
  lemma SingleSpan(inner: string)
    ensures Located([Span(inner)]) == [Chord(Trim(inner), 0)]
    ensures Width([Span(inner)]) == |Trim(inner)|
  {
    assert [Span(inner)][..0] == [];
  }

  /** The chord accounting loop (lines 50-67): walks the pieces once, pushing a chord at
      the running total for each span and adding every piece's units to the total. */
  method LocateChords(pieces: seq<Piece>) returns (chords: seq<Chord>, totalChordChars: nat)
    ensures chords == Located(pieces)
    ensures totalChordChars == Width(pieces)
  {
    chords := [];
    totalChordChars := 0;
    for i := 0 to |pieces|
      invariant chords == Located(pieces[..i])
      invariant totalChordChars == Width(pieces[..i])
    {
      assert pieces[..i + 1][..i] == pieces[..i];
      match pieces[i]
      case Span(inner) =>
        var chordName := Trim(inner);
        chords := chords + [Chord(chordName, totalChordChars)];
        totalChordChars := totalChordChars + |chordName|;
      case Filler(raw) =>
        var nbspCount := CountNbsp(raw);
        totalChordChars := totalChordChars + nbspCount;
        var plainText := StripTags(ReplaceNbsp(raw, ""));
        totalChordChars := totalChordChars + |plainText|;
    }
    assert pieces[..|pieces|] == pieces;
  }

  /** The span names of a chord row whose lyric row is rejected (lines 133-140). */
  method CollectSpanNames(pieces: seq<Piece>) returns (chords: seq<string>)
    ensures chords == SpanNames(pieces)
    ensures |chords| == |Located(pieces)|
    ensures forall i :: 0 <= i < |chords| ==> chords[i] == Located(pieces)[i].name
  {
    LocatedNames(pieces);
    chords := [];
    for i := 0 to |pieces|
      invariant chords == SpanNames(pieces[..i])
    {
      assert pieces[..i + 1][..i] == pieces[..i];
      if pieces[i].Span? {
        chords := chords + [Trim(pieces[i].inner)];
      }
    }
    assert pieces[..|pieces|] == pieces;
  }
}
