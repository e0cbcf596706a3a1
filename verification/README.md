# Music widget core: view history and playback controller

A Dafny model of the logic inside `script.js` of a small browser music player
(an album grid, a playlist view per album, and one audio element with
transport controls). The DOM and the audio element are abstracted away; what
remains is a set of pure transition functions over immutable state:

- `Navigation` — the current view (`Grid` or `Playlist(album)`) with back and
  forward stacks, `navigateToPlaylist`, `goBack`, `goForward`, the back/forward
  button state, and the history shape every reachable state keeps.
- `Queue` — the queue built from an album (artist and cover copied onto each
  song), JavaScript's `%`, the wrap-around next/previous index, and the single
  highlighted playlist row.
- `TimeFormat` — `formatTime` (`M:SS`), with a parser for the format as its
  partner and a proof that the real-valued version as written equals the
  version over whole seconds.
- `Player` — queue, index, play/pause, source, playback position, seek bar,
  time labels, now-playing fields, volume and mute; the `timeupdate`,
  `loadedmetadata`, `ended`, seek, volume and mute handlers; an event
  dispatcher with the invariant it preserves.
- `Catalog`, `Wrappers` — album/song records and `Option`.

Browser inputs (the audio element's `currentTime` and `duration`, slider
values) are parameters of the handlers. `duration` is `NaN` or a non-negative
number of seconds.

Two behaviours of the code are kept as written: going back after
opening an album returns to the prior view only when that album was not
already open (`NavigateThenBack`, `NavigateSameThenBack`), and the volume is
taken from the slider as given, not clamped.

## Model

| member | source | states |
|---|---|---|
| `Navigation.NavigateToPlaylist` | script.js:350-359 | the album's playlist becomes current; if a playlist with the same folder was already open neither stack changes, otherwise the old view is pushed on the back stack and the forward stack is cleared |
| `Navigation.GoBack` | script.js:361-369 | no-op on an empty back stack; otherwise the top of the back stack becomes current and the old current view is pushed on the forward stack; the total history size is preserved |
| `Navigation.GoForward` | script.js:371-379 | mirror image of going back; the total history size is preserved |
| `Navigation.UpdateNavButtons` | script.js:337-348 | each button is disabled exactly when its stack is empty |
| `Navigation.RenderedButtons` | script.js:166-172 | with rendering taken as immediate, the back button ends disabled exactly when the current view is the grid (`loadAlbums` disables it, `renderPlaylistView` at script.js:209 enables it) and the forward button keeps its stack-empty state |
| `Navigation.BackThenForward` | script.js:361-379 | going back then forward restores the exact prior state |
| `Navigation.ForwardThenBack` | script.js:361-379 | going forward then back restores the exact prior state |
| `Navigation.NavigateThenBack` | script.js:350-369 | after opening a different album, going back returns to the prior view and back stack, and going forward reopens the album |
| `Navigation.NavigateSameThenBack` | script.js:350-369 | re-opening the open album records nothing, so going back skips to the view before it |
| `Navigation.NavigateTwiceNoDuplicate` | script.js:352-356 | opening the same album twice in a row is the same as opening it once (no duplicate history) |
| `Navigation.ButtonsAfterNavigate` | script.js:350-357 | after opening a different album, back is enabled and forward disabled |
| `Navigation.InitialWellFormed` | script.js:153-155 | the start state (grid, empty stacks) has the history shape |
| `Navigation.NavStepPreservesWellFormed` | script.js:350-379 | every navigation keeps the grid at the bottom of the history and nowhere else |
| `Navigation.NavRunWellFormed` | script.js:350-379 | any sequence of navigations keeps that shape |
| `Navigation.RenderAgreesWithUpdate` | script.js:166-172 | on every reachable history, the back-button state forced by rendering the grid or a playlist equals the one `updateNavButtons` computes |
| `Queue.BuildQueue` | script.js:263-267 | the queue has one entry per song, in order, with the song's title, source and duration and the album's artist and cover |
| `Queue.QueueSongsRoundTrip` | script.js:263-267 | dropping the copied album fields from the queue gives back exactly the album's songs |
| `Queue.JsRem` | script.js:323 | JavaScript's remainder `a - n * trunc(a / n)`: in `[0, n)` for a non-negative dividend, in `(-n, 0]` for a negative one |
| `Queue.JsRemNegativeExample` | script.js:323 | the remainder takes the dividend's sign: `-7 % 3` is `-1` |
| `Queue.NextIndex` | script.js:323 | on a queue of length n, the next index of an index in range stays in `[0, n)`; the last index wraps to 0, any other moves up by one |
| `Queue.PrevIndex` | script.js:330 | the previous index stays in `[0, n)`; index 0 wraps to n-1, any other moves down by one |
| `Queue.PrevUndoesNext` | script.js:321-333 | previous after next, and next after previous, return to the starting index |
| `Queue.Highlight` | script.js:293-299 | the row flags keep their count and exactly the row at the current index is marked |
| `Queue.ActiveCountOfExactly` | script.js:293-299 | rows marked only at one index hold one mark when the index is in range, none otherwise |
| `Queue.HighlightMarksAtMostOne` | script.js:293-299 | after highlighting, at most one row is active, and exactly one when the index names a rendered row |
| `TimeFormat.Decimal` | script.js:463 | a number prints as digits only, with no leading zero, one digit exactly below 10 |
| `TimeFormat.DecimalRoundTrip` | script.js:463 | reading the printed digits back gives the number |
| `TimeFormat.DecimalInjective` | script.js:463 | distinct numbers print differently |
| `TimeFormat.PadSeconds` | script.js:463 | the seconds field has exactly two digits and reads back as the seconds |
| `TimeFormat.FormatTime` | script.js:460-464 | minutes digits, a colon, then two digits; the minutes read as `secs / 60`, the seconds as `secs % 60` (always 00..59) |
| `TimeFormat.FormatTimeRoundTrip` | script.js:460-464 | parsing a formatted time gives back the seconds |
| `TimeFormat.FormatTimeInjective` | script.js:460-464 | different whole-second times format differently |
| `TimeFormat.Rem60` | script.js:462 | `seconds % 60` of a non-negative number lies in `[0, 60)` |
| `TimeFormat.FloorParts` | script.js:461-462 | `floor(s / 60)` and `floor(s % 60)` are the minutes and seconds of `floor(s)` |
| `TimeFormat.FormatSeconds` | script.js:460-464 | the label of a fractional time equals the label of its whole seconds (truncation, no rounding) |
| `TimeFormat.FormatExamples` | script.js:460-464 | 5 formats as `0:05`, 61 and 61.9 as `1:01` |
| `Player.Initial` | script.js:125-159 | the start state has an empty queue and no source, is not playing, has seeking disabled, full volume and is not muted, shows the page as given, and keeps the player invariant |
| `Player.LoadSong` | script.js:274-291 | no-op on an empty queue; otherwise the current entry's source, title, artist and cover are shown, seeking is disabled, the seek bar and both labels reset to 0 and `0:00`, and only the current row is highlighted |
| `Player.PlaySong` | script.js:301-307 | playing starts only when a source is loaded; nothing else changes |
| `Player.PauseSong` | script.js:309-314 | playback stops; nothing else changes |
| `Player.TogglePlay` | script.js:316-319 | with a source loaded the playing flag flips; without one the player ends up not playing |
| `Player.PlayAt` | script.js:323-325 | moving to an index loads and plays that entry: its source, title, artist and cover shown, position 0, seeking disabled, seek bar and labels reset, only its row highlighted, queue, volume and mute kept |
| `Player.NextSong` | script.js:321-326 | no-op on an empty queue; otherwise the following entry (the first after the last) is loaded and playing, with every field as for `PlayAt` |
| `Player.PrevSong` | script.js:328-333 | no-op on an empty queue; otherwise the preceding entry (the last before the first) is loaded and playing, with every field as for `PlayAt` |
| `Player.PlaySongFromAlbum` | script.js:261-272 | the queue is the album's songs with its artist and cover, the index is the clicked row, and that song is loaded and playing from 0 with seeking disabled, labels reset and only its row highlighted |
| `Player.SeekRatio` | script.js:434 | the seek value is current time over duration on a 0..100 scale |
| `Player.ProgressSeek` | script.js:434 | with a positive duration the seek value is that ratio |
| `Player.ShowProgress` | script.js:434-436 | below the ceiling only the seek bar and the two labels change; the labels show the whole seconds of current time and duration |
| `Player.OnTimeUpdate` | script.js:421-437 | NaN duration: nothing changes; past 75 s: exactly one next-song transition, which loads and plays the following entry (labels reset, no progress shown); otherwise progress is shown |
| `Player.OnMetadataLoaded` | script.js:439-446 | seeking turns on exactly for a known positive duration, which is shown as the total; otherwise nothing changes |
| `Player.OnEnded` | script.js:448 | the end of a song loads and plays the following entry (every field as for `PlayAt`); nothing happens on an empty queue |
| `Player.SeekTo` | script.js:454-458 | ignored for a NaN or zero duration; otherwise only the position changes, to that fraction of the duration, within `[0, duration]` |
| `Player.MuteIconShown` | script.js:388 | the muted icon shows exactly when the player is muted or the volume is 0 |
| `Player.SetVolume` | script.js:407-414 | the volume is set; muted (and the muted icon) exactly when the volume is 0 |
| `Player.ToggleMute` | script.js:400-405 | muted flips and the volume is unchanged; the muted icon shows when newly muted or at volume 0 |
| `Player.RenderRows` | script.js:237-255 | a rendered view's song rows all start unmarked |
| `Player.DragSeekBar` | script.js:454-457 | the seek bar reads the value the user dragged it to, and nothing else changes, before the handler runs |
| `Player.Step` | script.js:382-458 | the row click (script.js:242-244), the mute and volume handlers (script.js:400-414) and the audio and seek listeners (script.js:421-458) each go to their handler; every event keeps the index in range; no event other than metadata with a known positive duration turns seeking on, and that one does; only the volume slider and the mute button change volume or mute; after a seek input the seek bar reads the dragged value |
| `Player.StepPreservesValid` | script.js:261-458 | every event keeps the index in range and the loaded source and now-playing fields equal to the current entry |
| `Player.RunPreservesValid` | script.js:261-458 | any sequence of events keeps that invariant |
| `Player.PrevAfterNext` | script.js:321-333 | previous after next returns to the same entry of the same queue |
| `Player.SecondRowThenNext` | script.js:261-326 | clicking the second song of a two-song album gives a two-entry queue at index 1; next then plays that album's first song |
| `Player.AutoSkipExample` | script.js:429-432 | an update at 76 s of a 120 s song is exactly one next-song transition |
| `Player.MuteIconExamples` | script.js:386-414 | volume 0 shows the muted icon, volume 0.5 does not, and at volume 0 unmuting still shows it |

## Left out

- Catalog loading (`fetchAlbumsFromAssets`, `mockFetchAlbums`, the static album list, script.js:8-122): network I/O, promises and timers; albums enter the model as values.
- Rendering (`loadAlbums`, `renderPlaylistView`): markup, CSS classes and URI encoding are not modelled; only their effect on the back button (`RenderedButtons`) and on the song rows (`RenderRows`) is.
- RenderedButtons: rendering is treated as immediate. `loadAlbums` is asynchronous. It disables the back button (script.js:170) before it awaits the catalog (script.js:176), and it draws the grid only after that (script.js:179-199). So a navigation made while the fetch is pending can be overwritten by the late grid. For example: go back to the grid, then press forward before the fetch resolves. The playlist is drawn and back is enabled, and then the grid replaces the playlist on screen. The grid is then shown with back enabled while the current view is the playlist. The model's button state follows the current view, not what is on screen.
- The error path of `loadAlbums`, which re-enables the back button after a failed fetch: it depends on the fetch, which is not modelled.
- The audio element's `play()`, `load()` and `pause()` and the `error` listener: foreign browser APIs, reduced to the source, position, playing flag, volume and muted flag.
- Play/pause and mute icon markup: presentation only; the muted icon is the `MuteIconShown` predicate.
- Floating point: times, durations and volume are reals; NaN appears only as the `Duration.NaN` case, and infinite durations and negative or NaN inputs to `formatTime` are not modelled.
- ShowProgress: with a zero duration JavaScript computes NaN or Infinity for the seek value and the range input then replaces it by its default; the model leaves the seek bar where it was.
- ProgressSeek: the same zero-duration case; its contract keeps the old seek value, where the page would show the range input's default.
- ShowProgress: the seek value is kept as the exact ratio. A range input rounds a written value to its step, and the step is set in the page markup, which is not part of this model; the model assumes a step fine enough that no rounding happens. With the default step of 1 the bar would show the ratio rounded to a whole number.
- ShowProgress: the range input's clamping of a ratio above 100 (current time past the duration) is not modelled.
- The playback position: the `position` field records what the script writes to `currentTime` (a load resets it, a seek sets it); the browser advances it during playback and hands it to the `timeupdate` handler, so that handler takes the current time as its own parameter and a seek does not constrain the next update.
- SeekTo: the browser fires no input event on a disabled seek bar; the handler is modelled as written, without that guard.
- The play/pause, next and previous buttons are wired in the page markup, which is not part of this model; they appear as events of `Player.Step`.
