/**
 * The lyric cell of the row after a chord row in parse-song.cjs: its normalised text and
 * the test that decides whether it is really a row of chord names.
 */
module Lyric {
  import opened Wrappers
  import opened JsText

  /** The cell's inner HTML with the tags removed, `&nbsp;` turned into spaces, trimmed,
      and every run of white space collapsed to one space (lines 43 and 70-72). */
  function Normalise(cell: string): (r: string)
    ensures r == [] || (!IsSpace(r[0]) && !IsSpace(r[|r| - 1]))
    ensures forall i :: 0 <= i < |r| && IsSpace(r[i]) ==> r[i] == ' '
    ensures forall i :: 0 <= i < |r| - 1 ==> !(r[i] == ' ' && r[i + 1] == ' ')
    ensures NoTag(r)
  {
    NormalisedUntagged(cell);
    UntaggedIsNoTag(CollapseSpaces(Trim(ReplaceNbsp(StripTags(cell), " "))));
    CollapseSpaces(Trim(ReplaceNbsp(StripTags(cell), " ")))
  }

  /** No step after the tag stripping puts a tag back together. */
  lemma NormalisedUntagged(cell: string)
    ensures Untagged(CollapseSpaces(Trim(ReplaceNbsp(StripTags(cell), " "))))
  {
    StripTagsUntagged(cell);
    ReplaceUntagged(StripTags(cell));
    TrimUntagged(ReplaceNbsp(StripTags(cell), " "));
    CollapseUntagged(Trim(ReplaceNbsp(StripTags(cell), " ")));
  }

  /** Normalising keeps exactly the visible characters of the cell once its tags are removed
      and its `&nbsp;` entities are spaces; the text is empty exactly when there are none. */
  lemma NormaliseVisible(cell: string)
    ensures Visible(Normalise(cell)) == Visible(ReplaceNbsp(StripTags(cell), " "))
    ensures Normalise(cell) == [] <==> Visible(ReplaceNbsp(StripTags(cell), " ")) == []
  {
    var t := ReplaceNbsp(StripTags(cell), " ");
    TrimVisible(t);
    var u := Trim(t);
    if u != [] {
      assert Visible(u) == [u[0]] + Visible(u[1..]);
    }
  }

  /** The normalised text is the words of the untagged cell, where `&nbsp;` also separates
      words, joined by single spaces. */
  lemma NormaliseWords(cell: string)
    ensures Normalise(cell) == Join(Words(ReplaceNbsp(StripTags(cell), " ")), " ")
  {
    CollapseTrimWords(ReplaceNbsp(StripTags(cell), " "));
  }

  /** A cell with an entity, a double space and a bold tag reads as three words. */
  lemma NormaliseExample()
    ensures Normalise("I&nbsp;love  <b>you</b>") == "I love you"
  {
    var a, b, c, g, x, y := "I", "love", "you", "  ", "<b>", "</b>";
    assert "I&nbsp;love  <b>you</b>" == a + (Nbsp + (b + (g + (x + (c + y)))));
    ExampleWordShapes();
    NormaliseThreeWords(a, b, c, g, x, y);
    ExampleJoin();
  }

  /** `a&nbsp;b`, a run of white space `g`, then `c` between two tags `x` and `y`:
      the tags go, the entity and the run each become one space. */
  lemma NormaliseThreeWords(a: string, b: string, c: string, g: string, x: string, y: string)
    requires IsWord(a) && IsWord(b) && IsWord(c) && g != [] && AllSpace(g)
    requires '<' !in a + b + c + g && '&' !in a + b + c + g
    requires |x| >= 3 && x[0] == '<' && x[1] != '>' && x[|x| - 1] == '>'
    requires forall i :: 1 <= i < |x| - 1 ==> x[i] != '>'
    requires |y| >= 3 && y[0] == '<' && y[1] != '>' && y[|y| - 1] == '>'
    requires forall i :: 1 <= i < |y| - 1 ==> y[i] != '>'
    ensures Normalise(a + (Nbsp + (b + (g + (x + (c + y)))))) == Join([a, b, c], " ")
  {
    var cell := a + (Nbsp + (b + (g + (x + (c + y)))));
    NormaliseWords(cell);
    UntagExample(a, b, c, g, x, y);
    WordsExample(a, b, c, g);
  }

  lemma ExampleJoin()
    ensures Join(["I", "love", "you"], " ") == "I love you"
  {
    assert ["I", "love", "you"][1..] == ["love", "you"] && ["love", "you"][1..] == ["you"];
    assert Join(["love", "you"], " ") == "love" + " " + "you";
    assert "I" + " " + ("love" + " " + "you") == "I love you";
  }

  /** Tags go and the entity becomes a space in `a&nbsp;b` + `g` + `<x>c</y>`. */
  lemma UntagExample(a: string, b: string, c: string, g: string, x: string, y: string)
    requires '<' !in a + b + c + g && '&' !in a + b + c + g
    requires |x| >= 3 && x[0] == '<' && x[1] != '>' && x[|x| - 1] == '>'
    requires forall i :: 1 <= i < |x| - 1 ==> x[i] != '>'
    requires |y| >= 3 && y[0] == '<' && y[1] != '>' && y[|y| - 1] == '>'
    requires forall i :: 1 <= i < |y| - 1 ==> y[i] != '>'
    ensures ReplaceNbsp(StripTags(a + (Nbsp + (b + (g + (x + (c + y)))))), " ")
            == a + (" " + (b + (g + c)))
  {
    UntagStrip(a, b, c, g, x, y);
    ReplaceNbspPlain(a, Nbsp + (b + (g + c)), " ");
    ReplaceNbspEntity(b + (g + c), " ");
    assert (b + (g + c)) + [] == b + (g + c);
    ReplaceNbspPlain(b + (g + c), [], " ");
  }

  lemma ExampleWordShapes()
    ensures IsWord("I") && IsWord("love") && IsWord("you") && AllSpace("  ")
  {
    assert forall i :: 0 <= i < 4 ==> "love"[i] in "elov";
    assert forall i :: 0 <= i < 3 ==> "you"[i] in "ouy";
  }

  lemma UntagStrip(a: string, b: string, c: string, g: string, x: string, y: string)
    requires '<' !in a + b + c + g
    requires |x| >= 3 && x[0] == '<' && x[1] != '>' && x[|x| - 1] == '>'
    requires forall i :: 1 <= i < |x| - 1 ==> x[i] != '>'
    requires |y| >= 3 && y[0] == '<' && y[1] != '>' && y[|y| - 1] == '>'
    requires forall i :: 1 <= i < |y| - 1 ==> y[i] != '>'
    ensures StripTags(a + (Nbsp + (b + (g + (x + (c + y)))))) == a + (Nbsp + (b + (g + c)))
  {
    StripTagsPlain(a, Nbsp + (b + (g + (x + (c + y)))));
    StripTagsPlain(Nbsp, b + (g + (x + (c + y))));
    StripTagsPlain(b, g + (x + (c + y)));
    StripTagsPlain(g, x + (c + y));
    StripTagsTag(x, c + y);
    StripTagsPlain(c, y);
    assert y + [] == y && c + [] == c;
    StripTagsTag(y, []);
  }

  /** `a b` + `g` + `c` splits into its three words. */
  lemma WordsExample(a: string, b: string, c: string, g: string)
    requires IsWord(a) && IsWord(b) && IsWord(c) && g != [] && AllSpace(g)
    ensures Words(a + (" " + (b + (g + c)))) == [a, b, c]
  {
    WordsOfWord(a, " " + (b + (g + c)));
    WordsAfterSpace(" ", b + (g + c));
    WordsOfWord(b, g + c);
    WordsAfterSpace(g, c);
    assert c + [] == c;
    WordsOfWord(c, []);
  }

  /** Trimming removes white space only. */
  lemma TrimVisible(s: string)
    ensures Visible(Trim(s)) == Visible(s)
  {
    TrimStartVisible(s);
    TrimEndVisible(TrimStart(s));
  }

  /** A character of `[A-Ga-g#bmMsudimaj7\/\s]`, the class of the chord-only test. */
  predicate IsChordOnlyChar(c: char) {
    ('A' <= c <= 'G') || ('a' <= c <= 'g') || c == '#' || c == 'b' || c == 'm' || c == 'M'
    || c == 's' || c == 'u' || c == 'd' || c == 'i' || c == 'a' || c == 'j' || c == '7'
    || c == '/' || IsSpace(c)
  }

  /** `lyricText && /^[A-Ga-g#bmMsudimaj7\/\s]+$/.test(lyricText)` (line 46). */
  predicate IsChordOnly(text: string) {
    text != [] && forall i :: 0 <= i < |text| ==> IsChordOnlyChar(text[i])
  }

  /** Whether the row after a chord row is taken as its lyric row (line 48): it has a cell,
      the cell's content does not mention `class="chords"`, and its text is non-empty and
      not made of chord-name characters only. */
  predicate Accepted(cell: Option<string>) {
    && cell.Some?
    && !Contains(cell.value, "class=\"chords\"")
    && !IsChordOnly(Normalise(cell.value))
    && |Normalise(cell.value)| > 0
  }

  /** The row taken as the lyric row has, once its tags are stripped, a visible character
      outside the chord-name class: something a chord name could not contain. */
  lemma AcceptedText(cell: Option<string>)
    requires Accepted(cell)
    ensures exists c :: c in Visible(ReplaceNbsp(StripTags(cell.value), " ")) && !IsChordOnlyChar(c)
  {
    var t := Normalise(cell.value);
    var i :| 0 <= i < |t| && !IsChordOnlyChar(t[i]);
    VisibleHas(t, t[i]);
    NormaliseVisible(cell.value);
    assert t[i] in Visible(ReplaceNbsp(StripTags(cell.value), " "));
  }

  /** The class admits lower-case `a`-`g`, so an ordinary word such as "bad" counts as chord names,
      as does a row of chord names; "hello" does not. */
  lemma ChordOnlyExamples()
    ensures IsChordOnly("bad")
    ensures IsChordOnly("Am G")
    ensures !IsChordOnly("hello")
    ensures !IsChordOnly("")
  {
    assert !IsChordOnlyChar("hello"[0]);
  }
}
