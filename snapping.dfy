/**
 * Where a chord lands on the lyric line (parse-song.cjs lines 77-114): its position on the
 * chord line is scaled to the lyric's length, rounded, clamped, and then moved to the
 * nearest word start when one is at most three characters away.
 */
module Snapping {
  import opened Wrappers
  import opened JsText

  /** `Math.abs(a - b)`. */
  function Dist(a: nat, b: nat): nat { if a <= b then b - a else a - b }

  /** `Math.round(n / d)` on exact rationals: the nearest integer, halves rounded up. */
  function RoundHalfUp(n: nat, d: nat): (q: nat)
    requires d > 0
    ensures 2 * d * q <= 2 * n + d < 2 * d * q + 2 * d
  {
    DivBounds(2 * n + d, 2 * d);
    (2 * n + d) / (2 * d)
  }

  lemma DivBounds(n: nat, d: nat)
    requires d > 0
    ensures d * (n / d) <= n < d * (n / d) + d
  {
  }

  /** Rounding to the nearest integer never reverses the order of two quotients. */
  lemma RoundMonotone(n1: nat, n2: nat, d: nat)
    requires d > 0 && n1 <= n2
    ensures RoundHalfUp(n1, d) <= RoundHalfUp(n2, d)
  {
    var q1, q2 := RoundHalfUp(n1, d), RoundHalfUp(n2, d);
    assert 2 * d * (q2 + 1) == 2 * d * q2 + 2 * d;
    assert 2 * d * q1 < 2 * d * (q2 + 1);
    MulCancel(2 * d, q1, q2 + 1);
  }

  lemma MulMonotone(a: nat, b: nat, c: nat)
    requires b <= c
    ensures a * b <= a * c
  {
  }

  lemma MulCancel(a: nat, b: nat, c: nat)
    requires a * b < a * c
    ensures b < c
  {
    if b >= c {
      MulMonotone(a, c, b);
    }
  }

  /** The chord's position on the lyric line before snapping (lines 90-95): `rawPos` scaled
      from `totalChordChars` to `lyricsLen` and rounded, clamped to the line; 0 when the chord
      line has no width. */
  function MapPosition(rawPos: nat, totalChordChars: nat, lyricsLen: nat): (p: nat)
    ensures p <= lyricsLen
    ensures totalChordChars == 0 || rawPos == 0 ==> p == 0
  {
    if totalChordChars > 0 then
      var q := RoundHalfUp(rawPos * lyricsLen, totalChordChars);
      Min(q, lyricsLen)
    else 0
  }

  /** Within the chord line the clamp never acts: the position is the nearest integer to
      `rawPos * lyricsLen / totalChordChars`, and a chord at the end of the chord line lands
      at the end of the lyric. */
  lemma MapRounds(rawPos: nat, totalChordChars: nat, lyricsLen: nat)
    requires 0 < totalChordChars && rawPos <= totalChordChars
    ensures var p := MapPosition(rawPos, totalChordChars, lyricsLen);
      2 * totalChordChars * p <= 2 * rawPos * lyricsLen + totalChordChars < 2 * totalChordChars * p + 2 * totalChordChars
    ensures rawPos == totalChordChars ==> MapPosition(rawPos, totalChordChars, lyricsLen) == lyricsLen
  {
    var t, n := totalChordChars, rawPos * lyricsLen;
    var q := RoundHalfUp(n, t);
    assert 2 * rawPos * lyricsLen == 2 * n;
    MulMonotone(lyricsLen, rawPos, t);
    assert n <= t * lyricsLen;
    assert 2 * t * (lyricsLen + 1) == 2 * (t * lyricsLen) + 2 * t;
    MulCancel(2 * t, q, lyricsLen + 1);
    assert MapPosition(rawPos, t, lyricsLen) == q;
    if rawPos == t {
      EndRounds(t, lyricsLen, q);
    }
  }

  lemma EndRounds(t: nat, lyricsLen: nat, q: nat)
    requires t > 0 && q == RoundHalfUp(t * lyricsLen, t)
    ensures q == lyricsLen
  {
    assert 2 * (t * lyricsLen) == 2 * t * lyricsLen;
    assert 2 * t * (q + 1) == 2 * t * q + 2 * t;
    MulCancel(2 * t, lyricsLen, q + 1);
    MulCancel(2 * t, q, lyricsLen + 1);
  }

  /** A chord further along the chord line never lands earlier on the lyric line. */
  lemma MapMonotone(raw1: nat, raw2: nat, totalChordChars: nat, lyricsLen: nat)
    requires raw1 <= raw2
    ensures MapPosition(raw1, totalChordChars, lyricsLen) <= MapPosition(raw2, totalChordChars, lyricsLen)
  {
    if totalChordChars > 0 {
      MulMonotone(lyricsLen, raw1, raw2);
      RoundMonotone(raw1 * lyricsLen, raw2 * lyricsLen, totalChordChars);
    }
  }

  /** Position `i` starts a word of `s`: it is 0, or a non-space after a space (lines 80-85). */
  predicate IsWordStart(s: string, i: nat) {
    i == 0 || (i < |s| && s[i - 1] == ' ' && s[i] != ' ')
  }

  predicate Increasing(xs: seq<nat>) {
    forall i, j :: 0 <= i < j < |xs| ==> xs[i] < xs[j]
  }

  /** The word-start loop (lines 80-85): the word starts of the lyric, in increasing order. */
  method WordStarts(lyrics: string) returns (wordStarts: seq<nat>)
    ensures |wordStarts| > 0 && wordStarts[0] == 0
    ensures Increasing(wordStarts)
    ensures forall k: nat :: k in wordStarts <==> IsWordStart(lyrics, k)
  {
    wordStarts := [0];
    var i := 1;
    while i < |lyrics|
      invariant 1 <= i && (i <= |lyrics| || i == 1)
      invariant |wordStarts| > 0 && wordStarts[0] == 0
      invariant Increasing(wordStarts)
      invariant forall k :: 0 <= k < |wordStarts| ==> wordStarts[k] < i
      invariant forall k: nat :: k < i ==> (k in wordStarts <==> IsWordStart(lyrics, k))
    {
      if lyrics[i - 1] == ' ' && lyrics[i] != ' ' {
        wordStarts := wordStarts + [i];
      }
      i := i + 1;
    }
  }

  /** The largest word start at or before `p`. */
  function PrevStart(s: string, p: nat): (w: nat)
    ensures w <= p && IsWordStart(s, w)
    ensures forall k: nat :: w < k <= p ==> !IsWordStart(s, k)
  {
    if IsWordStart(s, p) then p else PrevStart(s, p - 1)
  }

  /** The smallest word start at or after `p`, if there is one. */
  function NextStart(s: string, p: nat): (w: Option<nat>)
    ensures w.Some? ==> p <= w.value && IsWordStart(s, w.value)
    ensures w.Some? ==> forall k: nat :: p <= k < w.value ==> !IsWordStart(s, k)
    ensures w.None? ==> forall k: nat :: p <= k ==> !IsWordStart(s, k)
    decreases |s| - p
  {
    if IsWordStart(s, p) then Some(p)
    else if p >= |s| then None
    else NextStart(s, p + 1)
  }

  /** The word start nearest to `p`; of two at the same distance, the earlier one. */
  function Nearest(s: string, p: nat): nat {
    var a := PrevStart(s, p);
    match NextStart(s, p)
    case None => a
    case Some(b) => if p - a <= b - p then a else b
  }

  /** `Nearest` is a word start, no word start is closer, and none as close comes before it. */
  lemma NearestIsNearest(s: string, p: nat)
    ensures IsWordStart(s, Nearest(s, p))
    ensures forall w: nat :: IsWordStart(s, w) ==> Dist(p, Nearest(s, p)) <= Dist(p, w)
    ensures forall w: nat :: IsWordStart(s, w) && Dist(p, w) == Dist(p, Nearest(s, p)) ==> Nearest(s, p) <= w
  {
    var a := PrevStart(s, p);
    var b := NextStart(s, p);
    forall w: nat | IsWordStart(s, w)
      ensures Dist(p, Nearest(s, p)) <= Dist(p, w)
      ensures Dist(p, w) == Dist(p, Nearest(s, p)) ==> Nearest(s, p) <= w
    {
      if w <= p {
        assert w <= a;
      } else {
        assert b.Some? && b.value <= w;
      }
    }
  }

  /** A word start is never past the end of the lyric. */
  lemma WordStartBound(s: string, w: nat)
    requires IsWordStart(s, w)
    ensures w <= |s|
  {
  }

  /** `Infinity` or a finite distance, for `bestDist`. */
  datatype Extended = Finite(n: nat) | Infinity

  predicate Below(d: nat, e: Extended) {
    match e
    case Infinity => true
    case Finite(n) => d < n
  }

  /** `ws[j]` is at the least distance from `p`, and every entry before it is strictly further. */
  predicate FirstNearest(ws: seq<nat>, p: nat, j: nat) {
    && j < |ws|
    && (forall k :: 0 <= k < |ws| ==> Dist(p, ws[j]) <= Dist(p, ws[k]))
    && (forall k :: 0 <= k < j ==> Dist(p, ws[j]) < Dist(p, ws[k]))
  }

  /** The snapping loop (lines 98-106): keeps the first word start at the least distance. */
  method Snap(wordStarts: seq<nat>, mappedPos: nat) returns (bestWordStart: nat, bestDist: Extended)
    ensures wordStarts == [] ==> bestWordStart == 0 && bestDist == Infinity
    ensures wordStarts != [] ==> bestDist == Finite(Dist(mappedPos, bestWordStart))
    ensures wordStarts != [] ==> exists j: nat :: FirstNearest(wordStarts, mappedPos, j) && wordStarts[j] == bestWordStart
  {
    bestWordStart := 0;
    bestDist := Infinity;
    ghost var best := 0;
    for k := 0 to |wordStarts|
      invariant k == 0 ==> bestWordStart == 0 && bestDist == Infinity
      invariant k > 0 ==> best < k && wordStarts[best] == bestWordStart
      invariant k > 0 ==> bestDist == Finite(Dist(mappedPos, bestWordStart))
      invariant k > 0 ==> forall m :: 0 <= m < k ==> Dist(mappedPos, bestWordStart) <= Dist(mappedPos, wordStarts[m])
      invariant k > 0 ==> forall m :: 0 <= m < best ==> Dist(mappedPos, bestWordStart) < Dist(mappedPos, wordStarts[m])
    {
      var ws := wordStarts[k];
      var dist := Dist(mappedPos, ws);
      if Below(dist, bestDist) {
        bestDist := Finite(dist);
        bestWordStart := ws;
        best := k;
      }
    }
  }

  /** Over the lyric's word starts in increasing order, the first nearest entry is `Nearest`. */
  lemma FirstNearestIsNearest(s: string, ws: seq<nat>, p: nat, j: nat)
    requires Increasing(ws)
    requires forall k: nat :: k in ws <==> IsWordStart(s, k)
    requires FirstNearest(ws, p, j)
    ensures ws[j] == Nearest(s, p)
  {
    NearestIsNearest(s, p);
    var n := Nearest(s, p);
    assert n in ws;
    var i :| 0 <= i < |ws| && ws[i] == n;
    assert IsWordStart(s, ws[j]);
    assert Dist(p, n) <= Dist(p, ws[j]);
  }

  /** Snap only if close: the threshold of line 110. */
  const SnapThreshold: nat := 3

  /** Where the chord mapped to `mappedPos` is placed (line 111). */
  function Placement(s: string, mappedPos: nat): nat {
    var n := Nearest(s, mappedPos);
    if Dist(mappedPos, n) <= SnapThreshold then n else mappedPos
  }

  /** A placement is a word start within the threshold, or the mapped position when none is
      that close; it stays on the line. */
  lemma PlacementSpec(s: string, mappedPos: nat)
    requires mappedPos <= |s|
    ensures Placement(s, mappedPos) <= |s|
    ensures (exists w: nat :: IsWordStart(s, w) && Dist(mappedPos, w) <= SnapThreshold)
      ==> IsWordStart(s, Placement(s, mappedPos)) && Dist(mappedPos, Placement(s, mappedPos)) <= SnapThreshold
    ensures (forall w: nat :: IsWordStart(s, w) ==> Dist(mappedPos, w) > SnapThreshold)
      ==> Placement(s, mappedPos) == mappedPos
  {
    NearestIsNearest(s, mappedPos);
    WordStartBound(s, Nearest(s, mappedPos));
  }

  /** Snapping keeps the order of the chords: a later mapped position is never placed
      before an earlier one, so the chords need no sorting before they are inserted. */
  lemma PlacementMonotone(s: string, p1: nat, p2: nat)
    requires p1 <= p2
    ensures Placement(s, p1) <= Placement(s, p2)
  {
    NearestIsNearest(s, p1);
    NearestIsNearest(s, p2);
    var n1, n2 := Nearest(s, p1), Nearest(s, p2);
    assert Dist(p1, n1) <= Dist(p1, n2) && Dist(p2, n2) <= Dist(p2, n1);
    assert n1 > p2 ==> Dist(p2, n1) < Dist(p1, n1) || p1 == p2;
    assert n2 < p1 ==> Dist(p1, n2) < Dist(p2, n2) || p1 == p2;
  }

  /** The line "hello world" has word starts 0 and 6: position 9 snaps back to 6, which is
      three away, while position 10 is four away and stays. */
  lemma PlacementExamples()
    ensures Placement("hello world", 9) == 6
    ensures Placement("hello world", 10) == 10
  {
    var s := "hello world";
    assert IsWordStart(s, 6);
    assert !IsWordStart(s, 7) && !IsWordStart(s, 8) && !IsWordStart(s, 9) && !IsWordStart(s, 10);
    assert PrevStart(s, 9) == 6 && PrevStart(s, 10) == 6;
    assert NextStart(s, 11) == None;
    assert NextStart(s, 9) == None && NextStart(s, 10) == None;
  }
}
