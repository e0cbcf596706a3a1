/**
 The playback queue: an album's songs with the album's artist and cover
 copied onto each entry, the wrap-around arithmetic of next/previous, and
 the single highlighted playlist row.
 */
module Queue {

  import opened Catalog

  /** A song as queued: the song's own fields plus its album's artist and cover. */
  datatype Entry = Entry(title: string, src: string, duration: string, artist: string, cover: string)

  function ToEntry(song: Song, meta: Meta): Entry {
    Entry(song.title, song.src, song.duration, meta.artist, meta.cover)
  }

  /** The song an entry was built from. */
  function EntrySong(e: Entry): Song {
    Song(e.title, e.src, e.duration)
  }

  /** The queue `playSongFromAlbum` builds from an album's songs. */
  function BuildQueue(songs: seq<Song>, meta: Meta): (q: seq<Entry>)
    ensures |q| == |songs|
    ensures forall k | 0 <= k < |q| ::
      && q[k].title == songs[k].title
      && q[k].src == songs[k].src
      && q[k].duration == songs[k].duration
      && q[k].artist == meta.artist
      && q[k].cover == meta.cover
  {
    if |songs| == 0 then [] else [ToEntry(songs[0], meta)] + BuildQueue(songs[1..], meta)
  }

  function QueueSongs(q: seq<Entry>): (songs: seq<Song>)
    ensures |songs| == |q|
  {
    if |q| == 0 then [] else [EntrySong(q[0])] + QueueSongs(q[1..])
  }

  /** Dropping the copied album fields gives back exactly the album's songs. */
  lemma {:induction false} QueueSongsRoundTrip(songs: seq<Song>, meta: Meta)
    ensures QueueSongs(BuildQueue(songs, meta)) == songs
  {
    if |songs| > 0 {
      QueueSongsRoundTrip(songs[1..], meta);
    }
  }

  /** The quotient of `a / n` truncated toward zero, as JavaScript's `%` uses it. */
  function TruncDiv(a: int, n: int): int
    requires n > 0
  {
    if a >= 0 then a / n else -((-a) / n)
  }

  /**
   JavaScript's `a % n`: `a - n * trunc(a / n)`, so the remainder takes the
   sign of the dividend (`-7 % 3 == -1`, where Dafny's `%` gives 2).
   */
  function JsRem(a: int, n: int): (r: int)
    requires n > 0
    ensures a == n * TruncDiv(a, n) + r
    ensures a >= 0 ==> 0 <= r < n
    ensures a < 0 ==> -n < r <= 0
  {
    if a >= 0 then a % n else -((-a) % n)
  }

  lemma JsRemNegativeExample()
    ensures JsRem(-7, 3) == -1
  {
  }

  /** `(i + 1) % n`, the index `nextSong` moves to: the last index wraps to 0. */
  function NextIndex(i: int, n: int): (r: int)
    requires n > 0
    ensures 0 <= i < n ==> 0 <= r < n
    ensures 0 <= i < n ==> r == if i == n - 1 then 0 else i + 1
  {
    JsRem(i + 1, n)
  }

  /** `(i - 1 + n) % n`, the index `prevSong` moves to: index 0 wraps to `n - 1`. */
  function PrevIndex(i: int, n: int): (r: int)
    requires n > 0
    ensures 0 <= i < n ==> 0 <= r < n
    ensures 0 <= i < n ==> r == if i == 0 then n - 1 else i - 1
  {
    JsRem(i - 1 + n, n)
  }

  lemma PrevUndoesNext(i: int, n: int)
    requires 0 <= i < n
    ensures PrevIndex(NextIndex(i, n), n) == i
    ensures NextIndex(PrevIndex(i, n), n) == i
  {
  }

  /**
   `highlightActiveSong` over the `active-song` flags of the rendered rows:
   every flag is cleared, then the row at the current index is marked if it exists.
   */
  function Highlight(rows: seq<bool>, index: int): (r: seq<bool>)
    ensures |r| == |rows|
    ensures forall k | 0 <= k < |r| :: r[k] <==> k == index
  {
    seq(|rows|, k requires 0 <= k < |rows| => k == index)
  }

  /** The number of marked rows. */
  function ActiveCount(rows: seq<bool>): nat {
    if |rows| == 0 then 0 else (if rows[0] then 1 else 0) + ActiveCount(rows[1..])
  }

  lemma {:induction false} ActiveCountOfExactly(rows: seq<bool>, index: int)
    requires forall k | 0 <= k < |rows| :: rows[k] <==> k == index
    ensures ActiveCount(rows) == if 0 <= index < |rows| then 1 else 0
    decreases |rows|
  {
    if |rows| > 0 {
      ActiveCountOfExactly(rows[1..], index - 1);
    }
  }

  /** At most one row is active, and exactly one when the index names a rendered row. */
  lemma HighlightMarksAtMostOne(rows: seq<bool>, index: int)
    ensures ActiveCount(Highlight(rows, index)) == if 0 <= index < |rows| then 1 else 0
  {
    ActiveCountOfExactly(Highlight(rows, index), index);
  }
}
