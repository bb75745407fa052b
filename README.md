# Song-sheet extraction and the song browser, modelled in Dafny

The repository has two parts, and this project models the core of each.

**The extractor** (`parse-song.cjs`) turns a chord website's song page into a plain-text song
sheet in the bracket format, for example `[C]I love you [G]very much`. It walks every table
row of the song area:

- A section header yields an empty line.
- A chord row followed by a lyric row yields one line:
  - The lyric is normalised: tags stripped, `&nbsp;` turned into spaces, trimmed, white
    space collapsed. The result is the lyric's words joined by single spaces.
  - Each chord is located in the chord line by counting characters and `&nbsp;` entities.
  - That position is mapped proportionally onto the lyric.
  - It is snapped to the nearest word start when one is within 3 characters.
  - The `[name]` markers are inserted from the last chord to the first.
- A chord row without a lyric row yields its chord names alone.

The lines are then joined. Leading newlines are removed and runs of blank lines are
collapsed. Last, the distinct chord names are collected.

**The browser** (`src/App.jsx`) reads the same format back:

- `extractChords` lists the distinct chords of a song.
- `parseLine` splits a line into chord and text parts.
- The app filters artists and chord names by a search query.
- It moves between four screens: artists, songs, song and chord dictionary.

The modules follow that structure:

- `JsText`: the JavaScript string operations the code relies on, with their regexes written
  out. These are `trim`, `\s` white space, tag stripping, `&nbsp;` replacement and
  collapsing, `includes`, ASCII `toLowerCase` and `join`.
- `ChordRow`: the chord cell as a sequence of pieces (spans and filler), and the chord
  positions and widths counted from them.
- `Lyric`: lyric normalisation and the test for a lyric row.
- `Snapping`: proportional mapping with `Math.round`, word starts, nearest-word snapping and
  the threshold.
- `Alignment`: placing the chords and inserting the markers, with the round trip back
  through the marker regex.
- `SongSheet`: the row loop.
- `SheetOutput`: the output clean-up and the set of chords used.
- `Markers`: the marker regexes `\[([A-Za-z0-9#]+)\]` (App) and `\[([A-Za-z0-9#\/]+)\]`
  (extractor), as `Names` and `Unmark`.
- `Reader`: `extractChords` and `parseLine`.
- `Library`: the search filters.
- `Navigation`: the screen state and its transitions.

The HTML is given to the model already tokenised. A table is a sequence of `Row`s. Each row
records what the loop's three regexes find in it:

- the section-header text;
- the chord cell, split around its `<span>`s;
- the content of its first `<td>`.

Everything after that point is modelled as the code does it.

Some behaviours of parse-song.cjs are easy to misread, and the model states them as the
code has them:

- The markers are inserted from the last chord to the first, with no sort by position
  (lines 118-123). Chords taken in chord-line order have non-decreasing placements
  (`Alignment.PlacementsOrdered`), so the reverse-order insertion writes the same line as a
  left-to-right layout (`Alignment.InsertLayout`).
- Chords that land on the same position come out in chord-row order.
- A section header with text always pushes `''` (line 29), even before the first line. The
  clean-up at line 151 removes the leading newlines this produces (`SheetOutput.CleanUpSpec`).
- For example, the lyric "I love you very much" is 20 characters long and its words start
  at 0, 2, 7, 11 and 16. With C at 0 and G at 10 on a chord line 20 units wide, G maps to 10
  and snaps to 11, and the line is `[C]I love you [G]very much` (`Alignment.AlignedExample`).

The two marker regexes differ. The browser's has no `/`, so a slash chord such as `[G/B]`
that the extractor writes is shown by the browser as literal text and is not counted as a
chord (`Markers.SlashChords`).

## Model

| member | source | states |
|---|---|---|
| ChordRow.LocateChords | parse-song.cjs:50-67 | the span loop yields exactly the located chords of the cell, and the total count is the width of all pieces (`&nbsp;` entities plus remaining plain characters for filler, trimmed name length for spans) |
| ChordRow.CollectSpanNames | parse-song.cjs:133-140 | the chord-only loop collects the trimmed span names in order, the same names, in the same order, as the located chords |
| ChordRow.Located | parse-song.cjs:52-58 | one chord per span of the cell |
| ChordRow.LocatedNames | parse-song.cjs:54-57 | the i-th located chord carries the i-th trimmed span name |
| ChordRow.LocatedBounds | parse-song.cjs:57-65 | every chord with its name fits inside the chord line's width, and chords are at non-decreasing, non-overlapping positions (each ends at or before the next one starts) |
| ChordRow.LocatedAt | parse-song.cjs:53-58 | a span's chord sits at the width of the pieces before it |
| ChordRow.WidthAppend | parse-song.cjs:53-66 | the width of a chord line is additive over its pieces |
| Lyric.Normalise | parse-song.cjs:42-44 | the normalised lyric neither starts nor ends with white space, its only white space is single plain spaces, and it contains no tag |
| Lyric.NormaliseWords | parse-song.cjs:70-72 | the normalised lyric is exactly the words of the untagged cell, with `&nbsp;` separating words like any white space, joined by single spaces: no word separator is lost and none is added |
| Lyric.NormaliseThreeWords | parse-song.cjs:70-72 | a word, `&nbsp;`, a word, a run of white space and a tagged word normalise to the three words joined by single spaces |
| Lyric.NormaliseExample | parse-song.cjs:70-72 | the cell `I&nbsp;love  <b>you</b>` normalises to `I love you` |
| Lyric.NormalisedUntagged | parse-song.cjs:70-72 | no step after the tag stripping (entity replacement, trimming, collapsing) puts a tag back together |
| Lyric.NormaliseVisible | parse-song.cjs:70-72 | normalising keeps exactly the non-white-space characters of the stripped and entity-replaced cell, in order; the result is empty exactly when there are none |
| Lyric.TrimVisible | parse-song.cjs:70 | trimming drops only white space |
| Lyric.AcceptedText | parse-song.cjs:42-48 | a row taken as the lyric row has, once its tags are stripped and `&nbsp;` replaced, a visible character outside the chord-name class |
| Lyric.ChordOnlyExamples | parse-song.cjs:46 | "bad" and "Am G" are classified as chord names, "hello" and the empty text are not |
| JsText.StripTagsClean | parse-song.cjs:28 | after the global tag replacement no tag remains anywhere in the text |
| JsText.StripTags | parse-song.cjs:28 | stripping tags only removes characters, and leaves a text without `<` unchanged |
| JsText.UntaggedIsNoTag | parse-song.cjs:43 | "no tag anywhere" holds exactly when no `<` (other than `<>`) has a `>` after it |
| JsText.ReplaceUntagged | parse-song.cjs:43 | replacing `&nbsp;` by spaces creates no tag |
| JsText.TrimUntagged | parse-song.cjs:43 | trimming creates no tag |
| JsText.CollapseUntagged | parse-song.cjs:43 | collapsing white space creates no tag |
| JsText.NbspGone | parse-song.cjs:43 | after the global replacement no `&nbsp;` is left |
| JsText.ReplaceNbsp | parse-song.cjs:61-64 | each replacement by `""` removes six characters and each by `" "` removes five |
| JsText.CollapseSpaces | parse-song.cjs:72 | collapsing keeps the visible characters, leaves only single plain spaces, keeps emptiness and whether the text starts or ends with white space |
| JsText.CollapseSpaceRun | parse-song.cjs:72 | a run of white space between two words becomes exactly one space, and the text on either side collapses on its own |
| JsText.CollapseAppend | parse-song.cjs:72 | collapsing a concatenation splits at a boundary that is not inside a run of white space |
| JsText.CollapseNoSpace | parse-song.cjs:72 | a text without white space is left unchanged |
| JsText.CollapseWords | parse-song.cjs:72 | a text that starts and ends with a visible character collapses to its words joined by single spaces |
| JsText.CollapseTrimWords | parse-song.cjs:70-72 | trimming and then collapsing gives the words of the text joined by single spaces |
| JsText.Words | parse-song.cjs:72 | every word of a text is non-empty and holds no white space |
| JsText.WordsTrail | parse-song.cjs:70 | trailing white space adds no word |
| JsText.WordsTrimStart | parse-song.cjs:70 | leading white space adds no word |
| JsText.WordsOfWord | parse-song.cjs:72 | a word followed by white space, or by nothing, is the first word of the text |
| JsText.StripTagsPlain | parse-song.cjs:70 | the text before the first `<` is kept unchanged |
| JsText.StripTagsTag | parse-song.cjs:70 | a whole tag `<…>` at the front is deleted and nothing after it |
| JsText.ReplaceNbspPlain | parse-song.cjs:70 | the text before the first `&` is kept unchanged |
| JsText.ReplaceNbspEntity | parse-song.cjs:70 | an `&nbsp;` at the front becomes the replacement text |
| JsText.CountNbsp | parse-song.cjs:61 | every counted entity takes six characters |
| JsText.Trim | parse-song.cjs:56 | the trimmed text is the slice left after removing the leading and trailing white space, and neither end is white space |
| JsText.Lower | src/App.jsx:350 | lower-casing maps each character and keeps the length |
| Snapping.RoundHalfUp | parse-song.cjs:91 | the result is the nearest integer to n/d with halves rounded up |
| Snapping.MapPosition | parse-song.cjs:88-95 | the mapped position is clamped to the lyric; a line without width, or a chord at its start, maps to 0 |
| Snapping.MapRounds | parse-song.cjs:90-95 | for a chord inside the line, the position is the rounded proportion rawPos/total scaled to the lyric length, and a chord at the end maps to the lyric's end |
| Snapping.MapMonotone | parse-song.cjs:88-95 | mapping never reverses the order of two chords |
| Snapping.RoundMonotone | parse-song.cjs:91 | rounding is monotone |
| Snapping.WordStarts | parse-song.cjs:80-85 | the list starts with 0, is strictly increasing, and holds exactly the positions that begin a word |
| Snapping.PrevStart | parse-song.cjs:98-106 | the last word start at or before the position |
| Snapping.NextStart | parse-song.cjs:98-106 | the first word start at or after the position, if any |
| Snapping.NearestIsNearest | parse-song.cjs:98-106 | the reference nearest word start is a word start, no word start is closer, and no equally close one comes before it |
| Snapping.Snap | parse-song.cjs:98-106 | the loop keeps the first entry at the least distance, and with no entries the initial 0 and `Infinity` |
| Snapping.FirstNearestIsNearest | parse-song.cjs:98-106 | over the word-start list, the loop's choice is the reference nearest word start |
| Snapping.PlacementSpec | parse-song.cjs:108-111 | a chord goes to a word start within 3 characters when one exists, else stays at its mapped position, and stays on the line |
| Snapping.PlacementMonotone | parse-song.cjs:88-111 | snapping with the threshold never reverses the order of two chords |
| Snapping.PlacementExamples | parse-song.cjs:108-111 | in "hello world", position 9 snaps to 6 and position 10 does not snap |
| Alignment.PlaceChords | parse-song.cjs:88-114 | the mapped chords are each chord's name at its placement, in chord order |
| Alignment.SnapIsNearest | parse-song.cjs:98-106 | the snapping loop run on the lyric's word starts finds the reference nearest word start |
| Alignment.Insert | parse-song.cjs:121-122 | one insertion adds as many characters as the marker has |
| Alignment.InsertMarkers | parse-song.cjs:118-123 | the reverse-order loop builds the line defined by `InsertAll` |
| Alignment.InsertAll | parse-song.cjs:118-123 | inserting markers never shortens the lyric |
| Alignment.InsertLayout | parse-song.cjs:118-123 | for chords ordered by position, inserting from last to first writes the same line as laying the lyric out left to right |
| Alignment.PlacementsOrdered | parse-song.cjs:88-114 | chords in chord-line order remain in order once placed, so no sort is needed |
| Alignment.LayoutUnmark | parse-song.cjs:118-123 | deleting the markers of a laid-out line gives back the lyric |
| Alignment.LayoutNames | parse-song.cjs:118-123 | the markers of a laid-out line are the chord names in order |
| Alignment.AlignLine | parse-song.cjs:77-123 | the word starts, placement and insertion produce the aligned line |
| Alignment.AlignedRoundTrip | parse-song.cjs:77-124 | the aligned line is the left-to-right layout; deleting its markers gives the lyric and reading them gives the chord names in order |
| Alignment.AlignedExample | parse-song.cjs:77-123 | "I love you very much" with C at 0 and G at 10 of a 20-wide chord line gives `[C]I love you [G]very much` |
| Alignment.PlacementsExample | parse-song.cjs:88-114 | in that example C is placed at 0 and G at 11 |
| SongSheet.RowStep | parse-song.cjs:23-145 | each row yields at most one line and the loop goes on at the next row, or the one after when the lyric row is consumed; that happens exactly when a chord row is followed by an accepted lyric row and has chords, and the line is then the aligned lyric; a header with text yields `''` and an empty one nothing; a chord row not consumed yields the chord-only line of its span names, or nothing when it has none; any other row yields nothing |
| SongSheet.ExtractLines | parse-song.cjs:18-147 | the table and row loops produce the lines of all tables in order, as defined row by row |
| SongSheet.ProcessRow | parse-song.cjs:23-145 | one pass of the loop body emits that row's lines and moves to the row after the ones it consumed |
| SongSheet.ChordRowLines | parse-song.cjs:33-144 | the chord-row branch emits the aligned line when the next row is taken as the lyric, else the chord names alone |
| SongSheet.TableLinesCount | parse-song.cjs:22-146 | a table yields no more lines than it has rows |
| SongSheet.AlignedLineReadsBack | parse-song.cjs:118-125 | the line for a chord row and its lyric row reads back as the normalised lyric and the row's chord names |
| SongSheet.ChordOnlyNames | parse-song.cjs:141-143 | a chord-only line reads back as its chord names |
| SongSheet.ChordOnlyUnmark | parse-song.cjs:141-143 | deleting the markers of a chord-only line leaves the single spaces between them |
| SongSheet.ChordOnlyRowReadsBack | parse-song.cjs:130-143 | the line a chord row without lyric row yields reads back as the row's span names, with single spaces between them once the markers are deleted |
| SheetOutput.CleanUpSpec | parse-song.cjs:150-152 | the output does not start with a newline, never has three newlines in a row, and keeps every other character of the joined lines in order (how each run is rewritten is `SheetOutput.CollapseRun`) |
| SheetOutput.CollapseRun | parse-song.cjs:152 | a run of n newlines between text becomes min(n, 2) newlines, so three or more become exactly one blank line and shorter runs are kept, with the text on both sides collapsed on its own |
| SheetOutput.CollapseLeadingRun | parse-song.cjs:152 | a run of newlines at the start is cut to at most two and the rest is collapsed on its own |
| SheetOutput.CleanUpExample | parse-song.cjs:150-152 | the lines "a", "", "", "b" print as "a", one blank line, "b" |
| SheetOutput.CollapseIdempotent | parse-song.cjs:152 | collapsing blank lines a second time changes nothing |
| SheetOutput.CollapseShort | parse-song.cjs:152 | the collapsed text has no run of three newlines |
| SheetOutput.CollapseText | parse-song.cjs:152 | collapsing keeps every non-newline character in order |
| SheetOutput.CollapseFixed | parse-song.cjs:152 | a text with no run of three newlines is left unchanged |
| SheetOutput.StripLeadingNewlines | parse-song.cjs:151 | exactly the leading newlines are removed |
| SheetOutput.CollapseBlankLines | parse-song.cjs:152 | a leading run of newlines is cut to at most two |
| SheetOutput.UsedChords | parse-song.cjs:158-162 | the set is the chord names of all lines, each once, in order of first use |
| Markers.SlashChords | src/App.jsx:9 | `[G/B]` is plain text to the browser's marker regex but a chord to the extractor's |
| Markers.ScanMarker | src/App.jsx:18 | a well-formed marker is read as its name and deleted |
| Markers.ScanPlain | src/App.jsx:18 | text without `[` holds no marker and is kept as is |
| Markers.NamesFrom | src/App.jsx:22-31 | the names from a position are the next match's name followed by the names after that match |
| Reader.ParseLine | src/App.jsx:16-42 | the parts render back to the line, their chords are the line's markers in order, and their texts are the line without markers; only the first part may lack a chord, and it does exactly when the line does not start with a marker, holding the text before the first marker; a line without markers is one text part; the distinct chords are those `extractChords` lists |
| Reader.ExtractChords | src/App.jsx:8-13 | the list holds exactly the marker names of the lyrics, without repeats |
| Reader.ChordsCount | src/App.jsx:22-39 | there is at most one part more than there are chords |
| Reader.Complete | src/App.jsx:34-41 | once the whole line is consumed, the parts render back to it and carry its chords and text |
| Library.FilterArtists | src/App.jsx:348-356 | an artist is shown exactly when the query is empty, is in its name, is in one of its song titles, or is in one of its chords ignoring case |
| Library.EmptyQueryShowsAll | src/App.jsx:349 | an empty query shows every artist in order |
| Library.FilterArtistsKeepsOrder | src/App.jsx:348 | the filter keeps the artists' order |
| Library.ChordSearchIgnoresCase | src/App.jsx:350-354 | two queries that differ only in case find a song by the same chords |
| Library.NameSearchKeepsCase | src/App.jsx:349-354 | the name search keeps case ("Ab" finds "Abba", "ab" does not) while the chord "Ab" matches the query "ab" |
| Library.FilterChordNames | src/App.jsx:516-519 | an empty query lists every chord; otherwise the chords containing the query ignoring case, and never more chords |
| Library.ChordFilterCaseBlind | src/App.jsx:517-519 | queries that differ only in case list the same chords in the same order |
| Navigation.GoToArtist | src/App.jsx:322-326 | the songs screen of that artist with the query cleared, the song unchanged |
| Navigation.GoToSong | src/App.jsx:328-331 | the song screen of that song, artist and query unchanged |
| Navigation.GoBack | src/App.jsx:333-345 | song to songs (song cleared), songs to artists (artist and query cleared), dictionary to artists (query cleared), artists unchanged |
| Navigation.GoHome | src/App.jsx:394 | the logo and title reset to the initial state |
| Navigation.OpenChords | src/App.jsx:446 | the dictionary screen with the query cleared, selections unchanged |
| Navigation.SetQuery | src/App.jsx:431 | typing changes the query only |
| Navigation.ApplyRenders | src/App.jsx:478-511 | every event offered on a renderable screen leads to a renderable screen |
| Navigation.RunRenders | src/App.jsx:478-511 | no sequence of events reaches a songs screen without an artist or a song screen without an artist and a song |
| Navigation.BackTwiceFromSong | src/App.jsx:333-345 | back twice from a song returns to the artist list with nothing selected and no query |
| Navigation.BackSettles | src/App.jsx:337-344 | back from the songs or dictionary screen lands on the artist list with no query, and further backs change nothing |
| Navigation.PickArtistClearsQuery | src/App.jsx:322-326 | picking an artist ignores whatever was typed before |

## Left out

- Network and process I/O: the HTTPS request, `process.argv`, `console.log` and the exit on a missing URL. The model starts from the tokenised tables and ends with the lines, the cleaned-up text and the chord list.
- The HTML regexes that cut the page into the song area, tables, rows and cells (lines 12-39, 52-54). Their results are the model's input: `SongSheet.Row` and `ChordRow.Piece`. A lazy regex's choice of match is not modelled.
- Snapping.RoundHalfUp: computes `Math.round` on the exact rational `rawPos * lyricsLen / total`, not on the floating-point product. A value that lands a hair below a half in floating point may round differently.
- String lengths are counted in characters, not UTF-16 code units. Characters outside the Basic Multilingual Plane would count once instead of twice.
- JsText.Lower: ASCII only. JavaScript's `toLowerCase` also folds non-ASCII letters.
- Alignment.AlignedRoundTrip: assumes the lyric has no `[` and every chord name is a token of the marker regex. The code does not check either, and the line does not read back otherwise.
- SongSheet.AlignedLineReadsBack: carries the same two assumptions.
- SongSheet.ChordOnlyRowReadsBack: assumes every chord name is a token of the marker regex. The code does not check this, and a line whose names are not tokens does not read back.
- React rendering, styling, the chord-diagram component and the song and chord data files. The state `Navigation` models is the one the components read.
- The screen components' own props and effects other than the buttons and inputs that change the `App` state. Only which events each screen offers is modelled (`Navigation.Offered`).
