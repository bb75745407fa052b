/**
 * The screen state of the `App` component in src/App.jsx (lines 317-345, 394, 404, 431,
 * 446 and 542): which screen is shown, the selected artist and song, and the search query,
 * with the transitions its buttons and inputs make.
 */
module Navigation {
  import opened Wrappers
  import opened Library

  /** `view`: "artists" | "songs" | "song" | "chords". */
  datatype View = ArtistList | SongList | SongPage | ChordDictionary

  /** The four `useState` cells of `App`. */
  datatype State = State(view: View, selectedArtist: Option<Artist>, selectedSong: Option<Song>, searchQuery: string)

  /** The initial state (lines 317-320). */
  function Init(): State {
    State(ArtistList, None, None, "")
  }

  /** `goToArtist` (lines 322-326): the artist's songs, with the query cleared. */
  function GoToArtist(st: State, artist: Artist): (r: State)
    ensures r.view == SongList && r.selectedArtist == Some(artist) && r.searchQuery == ""
    ensures r.selectedSong == st.selectedSong
  {
    st.(selectedArtist := Some(artist), view := SongList, searchQuery := "")
  }

  /** `goToSong` (lines 328-331). */
  function GoToSong(st: State, song: Song): (r: State)
    ensures r.view == SongPage && r.selectedSong == Some(song)
    ensures r.selectedArtist == st.selectedArtist && r.searchQuery == st.searchQuery
  {
    st.(selectedSong := Some(song), view := SongPage)
  }

  /** `goBack` (lines 333-345): one screen up; on the artist list nothing changes. */
  function GoBack(st: State): (r: State)
    ensures st.view == SongPage ==> r == st.(view := SongList, selectedSong := None)
    ensures st.view == SongList ==> r == st.(view := ArtistList, selectedArtist := None, searchQuery := "")
    ensures st.view == ChordDictionary ==> r == st.(view := ArtistList, searchQuery := "")
    ensures st.view == ArtistList ==> r == st
  {
    match st.view
    case SongPage => st.(selectedSong := None, view := SongList)
    case SongList => st.(selectedArtist := None, view := ArtistList, searchQuery := "")
    case ChordDictionary => st.(view := ArtistList, searchQuery := "")
    case ArtistList => st
  }

  /** A click on the logo or the title (lines 394 and 404). */
  function GoHome(st: State): (r: State)
    ensures r == Init()
  {
    st.(view := ArtistList, selectedArtist := None, selectedSong := None, searchQuery := "")
  }

  /** The chord dictionary button (line 446). */
  function OpenChords(st: State): (r: State)
    ensures r.view == ChordDictionary && r.searchQuery == ""
    ensures r.selectedArtist == st.selectedArtist && r.selectedSong == st.selectedSong
  {
    st.(searchQuery := "", view := ChordDictionary)
  }

  /** Typing in a search box (lines 431 and 542). */
  function SetQuery(st: State, query: string): (r: State)
    ensures r.searchQuery == query && r.view == st.view
    ensures r.selectedArtist == st.selectedArtist && r.selectedSong == st.selectedSong
  {
    st.(searchQuery := query)
  }

  /** What the user can do: each event is offered only on the screens that render its control. */
  datatype Event =
    | PickArtist(artist: Artist)   // an artist card, on the artist list (line 465)
    | PickSong(song: Song)         // a song card, on the song list (line 503)
    | Back                         // the back buttons (lines 480, 511, 522)
    | Home                         // the logo and the title (lines 394, 404)
    | Dictionary                   // the dictionary button, on the artist list (line 446)
    | Type(query: string)          // the search boxes (lines 431, 542)

  /** The event's control is on the screen `st` renders. */
  predicate Offered(st: State, e: Event) {
    match e
    case PickArtist(_) => st.view == ArtistList
    case PickSong(_) => st.view == SongList
    case Back => st.view != ArtistList
    case Home => true
    case Dictionary => st.view == ArtistList
    case Type(_) => st.view == ArtistList || st.view == ChordDictionary
  }

  function Apply(st: State, e: Event): State {
    match e
    case PickArtist(a) => GoToArtist(st, a)
    case PickSong(s) => GoToSong(st, s)
    case Back => GoBack(st)
    case Home => GoHome(st)
    case Dictionary => OpenChords(st)
    case Type(q) => SetQuery(st, q)
  }

  /** The state after a session of events; an event whose control is not shown does nothing. */
  function Run(events: seq<Event>): State {
    if events == [] then Init()
    else
      var st := Run(events[..|events| - 1]);
      var e := events[|events| - 1];
      if Offered(st, e) then Apply(st, e) else st
  }

  /** The screen `st` is on has what it renders (lines 478 and 510): the song list needs an
      artist, the song page an artist and a song. */
  predicate Renders(st: State) {
    && (st.view == SongList ==> st.selectedArtist.Some?)
    && (st.view == SongPage ==> st.selectedArtist.Some? && st.selectedSong.Some?)
  }

  /** Every offered event keeps the screen renderable. */
  lemma ApplyRenders(st: State, e: Event)
    requires Renders(st) && Offered(st, e)
    ensures Renders(Apply(st, e))
  {
  }

  /** No sequence of clicks and keystrokes reaches a screen that renders nothing. */
  lemma {:induction false} RunRenders(events: seq<Event>)
    ensures Renders(Run(events))
  {
    if events != [] {
      var st := Run(events[..|events| - 1]);
      RunRenders(events[..|events| - 1]);
      if Offered(st, events[|events| - 1]) {
        ApplyRenders(st, events[|events| - 1]);
      }
    }
  }

  /** From a song, back twice returns to the artist list with nothing selected and no query. */
  lemma BackTwiceFromSong(st: State)
    requires st.view == SongPage
    ensures GoBack(GoBack(st)) == st.(view := ArtistList, selectedArtist := None, selectedSong := None, searchQuery := "")
  {
  }

  /** Going back from the song list or the dictionary lands on the artist list with the
      query cleared; further backs change nothing. */
  lemma BackSettles(st: State)
    requires st.view == SongList || st.view == ChordDictionary
    ensures GoBack(st).view == ArtistList && GoBack(st).searchQuery == ""
    ensures GoBack(GoBack(st)) == GoBack(st)
  {
  }

  /** Picking an artist always starts the song list with an empty query, whatever was typed. */
  lemma PickArtistClearsQuery(st: State, artist: Artist, query: string)
    ensures GoToArtist(SetQuery(st, query), artist) == GoToArtist(st, artist)
  {
  }
}
