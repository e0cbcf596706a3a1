/**
 The catalogue records the player works on: an album is a folder identifier,
 descriptive metadata and an ordered list of songs. Records are read-only once
 loaded; how they are fetched is not part of this model.
 */
module Catalog {

  /** One song of an album. `duration` is the display label ("0:33"), not seconds. */
  datatype Song = Song(title: string, src: string, duration: string)

  /** The `meta` part of an album description. */
  datatype Meta = Meta(title: string, artist: string, cover: string, description: string)

  /** An album; `folder` identifies it (two albums are the same playlist when their folders agree). */
  datatype Album = Album(folder: string, meta: Meta, songs: seq<Song>)

  predicate SameFolder(a: Album, b: Album) {
    a.folder == b.folder
  }
}
