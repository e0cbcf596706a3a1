/**
 The view navigator: the current view (the album grid or one album's playlist)
 and two history stacks. The top of a stack is the last element of its sequence,
 matching JavaScript's push/pop.
 */
module Navigation {

  import opened Catalog

  datatype View = Grid | Playlist(album: Album)

  datatype NavState = NavState(current: View, back: seq<View>, forward: seq<View>)

  /** Disabled flags of the back and forward buttons. */
  datatype Buttons = Buttons(backDisabled: bool, forwardDisabled: bool)

  /** The state the page starts in: the grid, with empty history. */
  const Initial: NavState := NavState(Grid, [], [])

  /** True when the current view is already the playlist of an album with this folder. */
  predicate OnPlaylistOf(s: NavState, album: Album) {
    s.current.Playlist? && SameFolder(s.current.album, album)
  }

  /** `navigateToPlaylist`: open an album's playlist, recording history unless it is already open. */
  function NavigateToPlaylist(s: NavState, album: Album): (r: NavState)
    ensures r.current == Playlist(album)
    ensures OnPlaylistOf(s, album) ==> r.back == s.back && r.forward == s.forward
    ensures !OnPlaylistOf(s, album) ==> r.back == s.back + [s.current] && r.forward == []
  {
    if OnPlaylistOf(s, album) then s.(current := Playlist(album))
    else NavState(Playlist(album), s.back + [s.current], [])
  }

  /** `goBack`: step to the view on top of the back stack. */
  function GoBack(s: NavState): (r: NavState)
    ensures |s.back| == 0 ==> r == s
    ensures |s.back| > 0 ==>
      && r.current == s.back[|s.back| - 1]
      && r.back == s.back[..|s.back| - 1]
      && r.forward == s.forward + [s.current]
    ensures |r.back| + |r.forward| == |s.back| + |s.forward|
  {
    if |s.back| == 0 then s
    else NavState(s.back[|s.back| - 1], s.back[..|s.back| - 1], s.forward + [s.current])
  }

  /** `goForward`: the mirror image of `goBack`. */
  function GoForward(s: NavState): (r: NavState)
    ensures |s.forward| == 0 ==> r == s
    ensures |s.forward| > 0 ==>
      && r.current == s.forward[|s.forward| - 1]
      && r.forward == s.forward[..|s.forward| - 1]
      && r.back == s.back + [s.current]
    ensures |r.back| + |r.forward| == |s.back| + |s.forward|
  {
    if |s.forward| == 0 then s
    else NavState(s.forward[|s.forward| - 1], s.back + [s.current], s.forward[..|s.forward| - 1])
  }

  /** `updateNavButtons`: each button is disabled exactly when its stack is empty. */
  function UpdateNavButtons(s: NavState): (b: Buttons)
    ensures b.backDisabled <==> |s.back| == 0
    ensures b.forwardDisabled <==> |s.forward| == 0
  {
    Buttons(|s.back| == 0, |s.forward| == 0)
  }

  /**
   The buttons once the new view has been rendered, taking rendering as
   immediate: the back button ends disabled exactly when the current view is
   the grid (`loadAlbums` disables it, `renderPlaylistView` enables it),
   whatever the back stack holds; the forward button keeps its
   `updateNavButtons` state.
   */
  function RenderedButtons(s: NavState): (b: Buttons)
    ensures b.backDisabled <==> s.current.Grid?
    ensures b.forwardDisabled <==> |s.forward| == 0
  {
    Buttons(s.current.Grid?, |s.forward| == 0)
  }

  // ----- user actions and the history they build -----

  datatype NavEvent = OpenAlbum(album: Album) | BackClicked | ForwardClicked

  function NavStep(s: NavState, e: NavEvent): NavState {
    match e
    case OpenAlbum(a) => NavigateToPlaylist(s, a)
    case BackClicked => GoBack(s)
    case ForwardClicked => GoForward(s)
  }

  function NavRun(s: NavState, es: seq<NavEvent>): NavState
    decreases |es|
  {
    if |es| == 0 then s else NavRun(NavStep(s, es[0]), es[1..])
  }

  /**
   The shape of every history the page can build: the grid is the first view
   ever shown and never re-entered, so it sits at the bottom of the back stack
   (or is current when that stack is empty) and nowhere else.
   */
  predicate WellFormed(s: NavState) {
    && (s.current.Grid? <==> |s.back| == 0)
    && (|s.back| > 0 ==> s.back[0].Grid?)
    && (forall i | 1 <= i < |s.back| :: s.back[i].Playlist?)
    && (forall i | 0 <= i < |s.forward| :: s.forward[i].Playlist?)
  }

  lemma InitialWellFormed()
    ensures WellFormed(Initial)
  {
  }

  lemma NavStepPreservesWellFormed(s: NavState, e: NavEvent)
    requires WellFormed(s)
    ensures WellFormed(NavStep(s, e))
  {
  }

  lemma {:induction false} NavRunWellFormed(s: NavState, es: seq<NavEvent>)
    requires WellFormed(s)
    ensures WellFormed(NavRun(s, es))
    decreases |es|
  {
    if |es| > 0 {
      NavStepPreservesWellFormed(s, es[0]);
      NavRunWellFormed(NavStep(s, es[0]), es[1..]);
    }
  }

  /**
   On every history the page can reach, the render-time overrides of the back
   button agree with `updateNavButtons`.
   */
  lemma RenderAgreesWithUpdate(es: seq<NavEvent>)
    ensures RenderedButtons(NavRun(Initial, es)) == UpdateNavButtons(NavRun(Initial, es))
  {
    NavRunWellFormed(Initial, es);
  }

  // ----- laws of the history stacks -----

  lemma BackThenForward(s: NavState)
    requires |s.back| > 0
    ensures GoForward(GoBack(s)) == s
  {
  }

  lemma ForwardThenBack(s: NavState)
    requires |s.forward| > 0
    ensures GoBack(GoForward(s)) == s
  {
  }

  /** Opening a different album and going back returns to exactly the prior view; going forward reopens the album. */
  lemma NavigateThenBack(s: NavState, album: Album)
    requires !OnPlaylistOf(s, album)
    ensures GoBack(NavigateToPlaylist(s, album)).current == s.current
    ensures GoBack(NavigateToPlaylist(s, album)).back == s.back
    ensures GoForward(GoBack(NavigateToPlaylist(s, album))).current == Playlist(album)
  {
  }

  /**
   When that album's playlist is already open, opening it again records
   nothing, so going back skips past it to the view before.
   */
  lemma NavigateSameThenBack(s: NavState, album: Album)
    requires OnPlaylistOf(s, album) && |s.back| > 0
    ensures GoBack(NavigateToPlaylist(s, album)).current == s.back[|s.back| - 1]
  {
  }

  lemma NavigateTwiceNoDuplicate(s: NavState, album: Album)
    ensures NavigateToPlaylist(NavigateToPlaylist(s, album), album) == NavigateToPlaylist(s, album)
  {
  }

  /** After a navigation, back is available and forward is not unless the playlist was already open. */
  lemma ButtonsAfterNavigate(s: NavState, album: Album)
    requires !OnPlaylistOf(s, album)
    ensures UpdateNavButtons(NavigateToPlaylist(s, album)) == Buttons(false, true)
  {
  }
}
