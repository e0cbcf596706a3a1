/**
 The playback controller: the song queue and current index, the play/pause
 state, and the handlers that keep the audio element and the page's transport
 controls in step. The audio element itself is abstracted to its source, its
 playback position, its volume and its muted flag; its `duration` reaches the
 handlers as a parameter.
 */
module Player {

  import opened Wrappers
  import opened Catalog
  import opened Queue
  import opened TimeFormat

  /** Playback past this many seconds skips to the next song. */
  const AutoSkipSeconds: real := 75.0

  /** The label both time fields are reset to while a song loads. */
  const ZeroLabel: string := "0:00"

  /** The audio element's `duration`: NaN until the media's metadata is known. */
  datatype Duration = NaN | Secs(value: real)

  predicate DurationOk(d: Duration) {
    d.Secs? ==> d.value >= 0.0
  }

  /** What the page shows of the player. */
  datatype Display = Display(
    seekValue: real,       // the seek bar, on a 0..100 scale, unrounded
    currentLabel: string,  // elapsed time
    totalLabel: string,    // total duration
    title: string,
    artist: string,
    art: string,
    rows: seq<bool>)       // `active-song` flags of the song rows currently rendered

  datatype PlayerState = PlayerState(
    queue: seq<Entry>,
    index: int,
    isPlaying: bool,
    src: Option<string>,   // the audio element's source, None before any song is loaded
    position: real,        // the audio element's `currentTime`
    seekEnabled: bool,     // the seek bar is not disabled
    volume: real,
    muted: bool,
    display: Display)

  /** The player as the page starts it: empty queue, seek bar disabled, full volume, not muted. */
  function Initial(page: Display): (p: PlayerState)
    ensures Valid(p) && !p.seekEnabled && !p.isPlaying
    ensures p.queue == [] && p.src.None?
    ensures p.volume == 1.0 && !p.muted
    ensures p.display == page
  {
    PlayerState([], 0, false, None, 0.0, false, 1.0, false, page)
  }

  predicate IndexOk(p: PlayerState) {
    |p.queue| > 0 ==> 0 <= p.index < |p.queue|
  }

  /** The audio source and the now-playing fields show entry `e`. */
  predicate ShowsEntry(p: PlayerState, e: Entry) {
    && p.src == Some(e.src)
    && p.display.title == e.title
    && p.display.artist == e.artist
    && p.display.art == e.cover
  }

  /** The invariant every reachable player keeps. */
  predicate Valid(p: PlayerState) {
    && IndexOk(p)
    && 0.0 <= p.volume <= 1.0
    && (|p.queue| == 0 ==> p.src.None?)
    && (|p.queue| > 0 ==> ShowsEntry(p, p.queue[p.index]))
    && (p.isPlaying ==> p.src.Some?)
  }

  /**
   `r` is `p` after moving to entry `i` of its queue, loading and playing it:
   the entry's source and now-playing fields are shown, playback starts from 0,
   the seek bar and both labels are reset with seeking disabled, only row `i`
   is highlighted, and the queue, volume and mute are kept.
   */
  predicate SwitchedTo(r: PlayerState, p: PlayerState, i: int)
    requires 0 <= i < |p.queue|
  {
    && r.queue == p.queue && r.index == i
    && ShowsEntry(r, p.queue[i])
    && r.isPlaying && !r.seekEnabled && r.position == 0.0
    && r.display.seekValue == 0.0
    && r.display.currentLabel == ZeroLabel && r.display.totalLabel == ZeroLabel
    && |r.display.rows| == |p.display.rows|
    && (forall k | 0 <= k < |r.display.rows| :: r.display.rows[k] <==> k == i)
    && r.volume == p.volume && r.muted == p.muted
  }

  /** The index `nextSong` moves to, for an index within a non-empty queue. */
  function Following(p: PlayerState): (i: int)
    requires |p.queue| > 0 && IndexOk(p)
    ensures 0 <= i < |p.queue|
  {
    if p.index == |p.queue| - 1 then 0 else p.index + 1
  }

  // ----- loading and transport -----

  /**
   `loadSong`: load the current entry and reset the seek bar and both time
   labels; seeking stays disabled until metadata arrives.
   */
  function LoadSong(p: PlayerState): (r: PlayerState)
    requires IndexOk(p)
    ensures |p.queue| == 0 ==> r == p
    ensures |p.queue| > 0 ==>
      && ShowsEntry(r, p.queue[p.index])
      && !r.seekEnabled
      && r.position == 0.0
      && r.display.seekValue == 0.0
      && r.display.currentLabel == ZeroLabel
      && r.display.totalLabel == ZeroLabel
      && |r.display.rows| == |p.display.rows|
      && (forall k | 0 <= k < |r.display.rows| :: r.display.rows[k] <==> k == p.index)
      && r.queue == p.queue && r.index == p.index && r.isPlaying == p.isPlaying
      && r.volume == p.volume && r.muted == p.muted
  {
    if |p.queue| == 0 then p
    else
      var e := p.queue[p.index];
      p.(src := Some(e.src), position := 0.0, seekEnabled := false,
         display := Display(0.0, ZeroLabel, ZeroLabel, e.title, e.artist, e.cover,
                            Highlight(p.display.rows, p.index)))
  }

  /** `playSong`: start playback, unless no source has been loaded. */
  function PlaySong(p: PlayerState): (r: PlayerState)
    ensures r.isPlaying <==> p.src.Some? || p.isPlaying
    ensures r == p.(isPlaying := r.isPlaying)
  {
    if p.src.None? then p else p.(isPlaying := true)
  }

  /** `pauseSong`. */
  function PauseSong(p: PlayerState): (r: PlayerState)
    ensures !r.isPlaying
    ensures r == p.(isPlaying := r.isPlaying)
  {
    p.(isPlaying := false)
  }

  /** `togglePlay`: pause when playing, otherwise play. */
  function TogglePlay(p: PlayerState): (r: PlayerState)
    ensures p.src.Some? ==> r.isPlaying == !p.isPlaying
    ensures p.src.None? ==> !r.isPlaying
    ensures r == p.(isPlaying := r.isPlaying)
  {
    if p.isPlaying then PauseSong(p) else PlaySong(p)
  }

  /** Move to index `i` of a non-empty queue, load it and play it. */
  function PlayAt(p: PlayerState, i: int): (r: PlayerState)
    requires 0 <= i < |p.queue|
    ensures SwitchedTo(r, p, i)
  {
    PlaySong(LoadSong(p.(index := i)))
  }

  /** `nextSong`: advance with wrap-around; nothing happens on an empty queue. */
  function NextSong(p: PlayerState): (r: PlayerState)
    requires IndexOk(p)
    ensures |p.queue| == 0 ==> r == p
    ensures |p.queue| > 0 ==> SwitchedTo(r, p, Following(p))
  {
    if |p.queue| == 0 then p
    else PlayAt(p, NextIndex(p.index, |p.queue|))
  }

  /** `prevSong`: step back with wrap-around; nothing happens on an empty queue. */
  function PrevSong(p: PlayerState): (r: PlayerState)
    requires IndexOk(p)
    ensures |p.queue| == 0 ==> r == p
    ensures |p.queue| > 0 ==>
      SwitchedTo(r, p, if p.index == 0 then |p.queue| - 1 else p.index - 1)
  {
    if |p.queue| == 0 then p
    else PlayAt(p, PrevIndex(p.index, |p.queue|))
  }

  /**
   `playSongFromAlbum`: replace the queue by the album's songs, each carrying
   the album's artist and cover, then load and play the clicked row.
   */
  function PlaySongFromAlbum(p: PlayerState, album: Album, row: int): (r: PlayerState)
    requires 0 <= row < |album.songs|
    ensures |r.queue| == |album.songs| && r.index == row
    ensures forall k | 0 <= k < |r.queue| ::
      && EntrySong(r.queue[k]) == album.songs[k]
      && r.queue[k].artist == album.meta.artist
      && r.queue[k].cover == album.meta.cover
    ensures r.src == Some(album.songs[row].src) && r.isPlaying && !r.seekEnabled
    ensures r.display.title == album.songs[row].title
    ensures r.display.artist == album.meta.artist && r.display.art == album.meta.cover
    ensures r.position == 0.0 && r.display.seekValue == 0.0
    ensures r.display.currentLabel == ZeroLabel && r.display.totalLabel == ZeroLabel
    ensures |r.display.rows| == |p.display.rows|
    ensures forall k | 0 <= k < |r.display.rows| :: r.display.rows[k] <==> k == row
    ensures r.volume == p.volume && r.muted == p.muted
  {
    PlayAt(p.(queue := BuildQueue(album.songs, album.meta)), row)
  }

  // ----- audio element events -----

  /** The seek bar position for `current` seconds into a song of `duration` seconds. */
  function SeekRatio(current: real, duration: real): (v: real)
    requires duration > 0.0
    ensures v * duration == current * 100.0
  {
    current / duration * 100.0
  }

  /** The seek bar after a progress update; a zero duration leaves it where it was. */
  function ProgressSeek(old_value: real, current: real, duration: real): (v: real)
    requires current >= 0.0 && duration >= 0.0
    ensures duration > 0.0 ==> v * duration == current * 100.0
    ensures duration == 0.0 ==> v == old_value
  {
    if duration > 0.0 then SeekRatio(current, duration) else old_value
  }

  /**
   The part of the `timeupdate` handler below the auto-skip ceiling: the seek
   bar follows the elapsed fraction and both labels show whole seconds.
   */
  function ShowProgress(p: PlayerState, current: real, duration: real): (r: PlayerState)
    requires current >= 0.0 && duration >= 0.0
    ensures r == p.(display := r.display)
    ensures r.display.currentLabel == FormatTime(current.Floor)
    ensures r.display.totalLabel == FormatTime(duration.Floor)
    ensures r.display.seekValue == ProgressSeek(p.display.seekValue, current, duration)
    ensures r.display.title == p.display.title && r.display.artist == p.display.artist
    ensures r.display.art == p.display.art && r.display.rows == p.display.rows
  {
    p.(display := p.display.(seekValue := ProgressSeek(p.display.seekValue, current, duration),
                             currentLabel := FormatSeconds(current),
                             totalLabel := FormatSeconds(duration)))
  }

  /**
   The `timeupdate` handler: ignored while the duration is NaN; past the
   auto-skip ceiling it only moves to the next song; otherwise it shows progress.
   */
  function OnTimeUpdate(p: PlayerState, current: real, duration: Duration): (r: PlayerState)
    requires IndexOk(p) && current >= 0.0 && DurationOk(duration)
    ensures duration.NaN? ==> r == p
    ensures duration.Secs? && current > AutoSkipSeconds ==> r == NextSong(p)
    ensures duration.Secs? && current > AutoSkipSeconds && |p.queue| == 0 ==> r == p
    ensures duration.Secs? && current > AutoSkipSeconds && |p.queue| > 0 ==>
      SwitchedTo(r, p, Following(p))
    ensures duration.Secs? && current <= AutoSkipSeconds ==>
      r == ShowProgress(p, current, duration.value)
  {
    match duration
    case NaN => p
    case Secs(d) =>
      if current > AutoSkipSeconds then NextSong(p)
      else ShowProgress(p, current, d)
  }

  /**
   The `loadedmetadata` handler: a known, positive duration is shown as the
   total and enables seeking; anything else changes nothing.
   */
  function OnMetadataLoaded(p: PlayerState, duration: Duration): (r: PlayerState)
    requires DurationOk(duration)
    ensures r.seekEnabled <==> p.seekEnabled || (duration.Secs? && duration.value > 0.0)
    ensures duration.Secs? && duration.value > 0.0 ==>
      r == p.(seekEnabled := true, display := p.display.(totalLabel := FormatTime(duration.value.Floor)))
    ensures !(duration.Secs? && duration.value > 0.0) ==> r == p
  {
    if duration.Secs? && duration.value > 0.0 then
      p.(seekEnabled := true, display := p.display.(totalLabel := FormatSeconds(duration.value)))
    else p
  }

  /** The `ended` handler. */
  function OnEnded(p: PlayerState): (r: PlayerState)
    requires IndexOk(p)
    ensures |p.queue| > 0 ==> SwitchedTo(r, p, Following(p))
    ensures |p.queue| == 0 ==> r == p
  {
    NextSong(p)
  }

  /**
   The seek bar's `input` handler: with an unknown or zero duration nothing
   happens; otherwise playback jumps to that fraction of the song.
   */
  function SeekTo(p: PlayerState, value: real, duration: Duration): (r: PlayerState)
    requires 0.0 <= value <= 100.0 && DurationOk(duration)
    ensures duration.NaN? || duration.value == 0.0 ==> r == p
    ensures duration.Secs? && duration.value > 0.0 ==>
      && r == p.(position := r.position)
      && 0.0 <= r.position <= duration.value
      && r.position * 100.0 == value * duration.value
  {
    match duration
    case NaN => p
    case Secs(d) =>
      if d == 0.0 then p
      else
        var pos := value / 100.0 * d;
        assert 0.0 <= value / 100.0 <= 1.0;
        p.(position := pos)
  }

  // ----- volume and mute -----

  /** Whether the mute button shows the muted icon. */
  function MuteIconShown(p: PlayerState): (shown: bool)
    ensures shown <==> p.muted || p.volume == 0.0
  {
    p.muted || p.volume == 0.0
  }

  /** The volume slider's `input` handler: zero volume mutes, any other volume unmutes. */
  function SetVolume(p: PlayerState, v: real): (r: PlayerState)
    requires 0.0 <= v <= 1.0
    ensures r.volume == v
    ensures r.muted <==> v == 0.0
    ensures MuteIconShown(r) <==> v == 0.0
    ensures r == p.(volume := r.volume, muted := r.muted)
  {
    p.(volume := v, muted := v == 0.0)
  }

  /** The mute button: flip `muted`, keep the volume. */
  function ToggleMute(p: PlayerState): (r: PlayerState)
    ensures r.muted == !p.muted && r.volume == p.volume
    ensures MuteIconShown(r) <==> !p.muted || p.volume == 0.0
    ensures r == p.(muted := r.muted)
  {
    p.(muted := !p.muted)
  }

  /** Rendering a view replaces the song rows: `count` unmarked rows (none for the grid). */
  function RenderRows(p: PlayerState, count: nat): (r: PlayerState)
    ensures |r.display.rows| == count
    ensures forall k | 0 <= k < count :: !r.display.rows[k]
    ensures r == p.(display := p.display.(rows := r.display.rows))
  {
    p.(display := p.display.(rows := seq(count, _ => false)))
  }

  /** The browser moves the seek bar's thumb to the dragged value before firing `input`. */
  function DragSeekBar(p: PlayerState, value: real): (r: PlayerState)
    ensures r.display.seekValue == value
    ensures r == p.(display := r.display)
    ensures r.display == p.display.(seekValue := value)
  {
    p.(display := p.display.(seekValue := value))
  }

  // ----- events -----

  datatype Event =
    | RowClicked(album: Album, row: int)
    | PlayPauseClicked
    | NextClicked
    | PrevClicked
    | TimeUpdate(current: real, duration: Duration)
    | MetadataLoaded(duration: Duration)
    | Ended
    | SeekInput(value: real, duration: Duration)
    | VolumeInput(volume: real)
    | MuteClicked
    | RowsRendered(count: nat)

  /** What the page and the browser guarantee of each event's arguments. */
  predicate EventOk(e: Event) {
    match e
    case RowClicked(a, row) => 0 <= row < |a.songs|
    case TimeUpdate(c, d) => c >= 0.0 && DurationOk(d)
    case MetadataLoaded(d) => DurationOk(d)
    case SeekInput(v, d) => 0.0 <= v <= 100.0 && DurationOk(d)
    case VolumeInput(v) => 0.0 <= v <= 1.0
    case _ => true
  }

  /**
   One event, dispatched to its handler as the listeners and buttons wire it.
   Seeking is switched on only by metadata with a known positive duration, and
   volume and mute change only through their two controls.
   */
  function Step(p: PlayerState, e: Event): (r: PlayerState)
    requires IndexOk(p) && EventOk(e)
    ensures IndexOk(r)
    ensures !p.seekEnabled && r.seekEnabled ==>
      e.MetadataLoaded? && e.duration.Secs? && e.duration.value > 0.0
    ensures e.MetadataLoaded? && e.duration.Secs? && e.duration.value > 0.0 ==> r.seekEnabled
    ensures !e.VolumeInput? && !e.MuteClicked? ==> r.volume == p.volume && r.muted == p.muted
    ensures e.SeekInput? ==> r.display.seekValue == e.value
  {
    match e
    case RowClicked(a, row) => PlaySongFromAlbum(p, a, row)
    case PlayPauseClicked => TogglePlay(p)
    case NextClicked => NextSong(p)
    case PrevClicked => PrevSong(p)
    case TimeUpdate(c, d) => OnTimeUpdate(p, c, d)
    case MetadataLoaded(d) => OnMetadataLoaded(p, d)
    case Ended => OnEnded(p)
    case SeekInput(v, d) => SeekTo(DragSeekBar(p, v), v, d)
    case VolumeInput(v) => SetVolume(p, v)
    case MuteClicked => ToggleMute(p)
    case RowsRendered(n) => RenderRows(p, n)
  }

  predicate AllOk(es: seq<Event>) {
    forall i | 0 <= i < |es| :: EventOk(es[i])
  }

  function Run(p: PlayerState, es: seq<Event>): PlayerState
    requires Valid(p) && AllOk(es)
    decreases |es|
  {
    if |es| == 0 then p
    else
      StepPreservesValid(p, es[0]);
      Run(Step(p, es[0]), es[1..])
  }

  lemma StepPreservesValid(p: PlayerState, e: Event)
    requires Valid(p) && EventOk(e)
    ensures Valid(Step(p, e))
  {
    match e
    case RowClicked(a, row) =>
      var r := PlaySongFromAlbum(p, a, row);
      assert r.queue[row].src == a.songs[row].src by {
        assert EntrySong(r.queue[row]) == a.songs[row];
      }
    case _ =>
  }

  lemma {:induction false} RunPreservesValid(p: PlayerState, es: seq<Event>)
    requires Valid(p) && AllOk(es)
    ensures Valid(Run(p, es))
    decreases |es|
  {
    if |es| > 0 {
      StepPreservesValid(p, es[0]);
      RunPreservesValid(Step(p, es[0]), es[1..]);
    }
  }

  // ----- properties of the controller -----

  /** Previous undoes next on any non-empty queue. */
  lemma PrevAfterNext(p: PlayerState)
    requires Valid(p) && |p.queue| > 0
    ensures PrevSong(NextSong(p)).index == p.index
    ensures PrevSong(NextSong(p)).queue == p.queue
  {
  }

  /**
   Clicking the second song of a two-song album builds a two-entry queue at
   index 1; the next song is then that album's first song.
   */
  lemma SecondRowThenNext(p: PlayerState, album: Album)
    requires |album.songs| == 2
    ensures PlaySongFromAlbum(p, album, 1).index == 1
    ensures |PlaySongFromAlbum(p, album, 1).queue| == 2
    ensures NextSong(PlaySongFromAlbum(p, album, 1)).index == 0
    ensures NextSong(PlaySongFromAlbum(p, album, 1)).src == Some(album.songs[0].src)
    ensures NextSong(PlaySongFromAlbum(p, album, 1)).display.title == album.songs[0].title
  {
    var r := PlaySongFromAlbum(p, album, 1);
    assert EntrySong(r.queue[0]) == album.songs[0];
  }

  /** `timeupdate` at 76 s of a 120 s song is exactly one `nextSong`. */
  lemma AutoSkipExample(p: PlayerState)
    requires Valid(p)
    ensures OnTimeUpdate(p, 76.0, Secs(120.0)) == NextSong(p)
  {
  }

  lemma MuteIconExamples(p: PlayerState)
    ensures MuteIconShown(SetVolume(p, 0.0))
    ensures !MuteIconShown(SetVolume(p, 0.5))
    ensures p.volume == 0.0 ==> MuteIconShown(ToggleMute(p))
  {
  }
}
