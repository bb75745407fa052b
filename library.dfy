/**
 * The search filters of src/App.jsx: the artist filter of the home screen (lines 348-356)
 * and the chord-name filter of the chord dictionary (lines 516-519).
 */
module Library {
  import opened JsText
  import Reader
  import Seqs

  /** A song of src/data/artists.js; its lyrics are in the bracket format. */
  datatype Song = Song(id: string, title: string, lyrics: string)

  /** An artist of src/data/artists.js with its songs. */
  datatype Artist = Artist(id: string, name: string, songs: seq<Song>)

  /** `c.toLowerCase().includes(q)` with `q` the lower-cased query. */
  predicate ChordMatches(chord: string, query: string) {
    Contains(Lower(chord), Lower(query))
  }

  /** A song matches when its title contains the query, or one of its chords contains the
      query without regard to case (lines 352-355). */
  predicate SongMatches(song: Song, query: string) {
    || Contains(song.title, query)
    || exists c :: c in Reader.ExtractChords(song.lyrics) && ChordMatches(c, query)
  }

  /** The test of the artist filter (lines 348-356). */
  predicate ArtistMatches(artist: Artist, query: string) {
    || query == []
    || Contains(artist.name, query)
    || exists i :: 0 <= i < |artist.songs| && SongMatches(artist.songs[i], query)
  }

  /** `filteredArtists`: the artists the home screen shows for a query. */
  function FilterArtists(artists: seq<Artist>, query: string): (r: seq<Artist>)
    ensures forall a :: a in r <==> a in artists && ArtistMatches(a, query)
  {
    Seqs.Filter(artists, a => ArtistMatches(a, query))
  }

  /** An empty query shows every artist, in the order of the data. */
  lemma EmptyQueryShowsAll(artists: seq<Artist>)
    ensures FilterArtists(artists, []) == artists
  {
    Seqs.FilterAll(artists, a => ArtistMatches(a, []));
  }

  /** The filter keeps the artists' order: filtering a list in two halves and joining the
      results is filtering the whole list. */
  lemma FilterArtistsKeepsOrder(front: seq<Artist>, back: seq<Artist>, query: string)
    ensures FilterArtists(front + back, query) == FilterArtists(front, query) + FilterArtists(back, query)
  {
    Seqs.FilterAppend(front, back, a => ArtistMatches(a, query));
  }

  /** The chord test ignores the case of the query: two queries that differ only in case find
      a song by the same chords. */
  lemma ChordSearchIgnoresCase(song: Song, q1: string, q2: string)
    requires Lower(q1) == Lower(q2)
    ensures (exists c :: c in Reader.ExtractChords(song.lyrics) && ChordMatches(c, q1))
      <==> (exists c :: c in Reader.ExtractChords(song.lyrics) && ChordMatches(c, q2))
  {
  }

  /** The name search does not ignore case: "Ab" finds the artist "Abba" and "ab" does not,
      while the chord "Ab" matches the query "ab". */
  lemma NameSearchKeepsCase()
    ensures ArtistMatches(Artist("1", "Abba", []), "Ab")
    ensures !ArtistMatches(Artist("1", "Abba", []), "ab")
    ensures ChordMatches("Ab", "ab")
  {
    assert "Ab" <= "Abba";
    assert !Contains("Abba", "ab") by {
      assert "Abba"[1..] == "bba" && "bba"[1..] == "ba" && "ba"[1..] == "a" && "a"[1..] == [];
      assert "Abba"[0] != "ab"[0] && "bba"[0] != "ab"[0] && "ba"[0] != "ab"[0];
      assert !("ab" <= "Abba") && !("ab" <= "bba") && !("ab" <= "ba") && !("ab" <= "a");
    }
    assert LowerChar('A') == 'a';
    assert Lower("Ab")[0] == 'a' && Lower("Ab")[1] == 'b' && Lower("ab")[0] == 'a' && Lower("ab")[1] == 'b';
    assert Lower("Ab") == "ab" == Lower("ab");
  }

  /** The chord dictionary's list for a query (lines 517-519): every chord name when the
      query is empty, else those containing it without regard to case. */
  function FilterChordNames(allChords: seq<string>, query: string): (r: seq<string>)
    ensures query == [] ==> r == allChords
    ensures query != [] ==> forall c :: c in r <==> c in allChords && ChordMatches(c, query)
    ensures |r| <= |allChords|
  {
    if query != [] then Seqs.Filter(allChords, c => ChordMatches(c, query)) else allChords
  }

  /** Queries that differ only in case select the same chords, in the same order. */
  lemma ChordFilterCaseBlind(allChords: seq<string>, q1: string, q2: string)
    requires q1 != [] && q2 != []
    requires Lower(q1) == Lower(q2)
    ensures FilterChordNames(allChords, q1) == FilterChordNames(allChords, q2)
  {
    FilterSameTest(allChords, c => ChordMatches(c, q1), c => ChordMatches(c, q2));
  }

  /** Two tests that agree on every element filter alike. */
  lemma {:induction false} FilterSameTest<T(!new)>(xs: seq<T>, p: T -> bool, q: T -> bool)
    requires forall i :: 0 <= i < |xs| ==> p(xs[i]) == q(xs[i])
    ensures Seqs.Filter(xs, p) == Seqs.Filter(xs, q)
  {
    if xs != [] {
      FilterSameTest(xs[1..], p, q);
    }
  }
}
