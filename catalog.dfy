/**
 * Catalog objects as the music API returns them, and the two projections
 * the "my top tracks" / "search" and "my top artists" handlers apply to
 * them before answering.
 */
module Catalog {
  import opened Wrappers
  import Text

  /**
   * An artist object. Only the fields the handlers read are kept; `images`
   * holds the image URLs in the order the API lists them.
   */
  datatype Artist = Artist(id: string, name: string, genres: seq<string>, images: seq<string>)

  /**
   * A track object: its artists' names, its album's image URLs, the
   * optional preview URL and the external link.
   */
  datatype Track = Track(
    id: string,
    name: string,
    artistNames: seq<string>,
    albumImages: seq<string>,
    previewUrl: Option<string>,
    spotifyUrl: string)

  /** The JSON object the handlers return for one track. */
  datatype TrackView = TrackView(
    id: string,
    name: string,
    artist: string,
    albumImage: string,
    previewUrl: Option<string>,
    spotifyUrl: string)

  /** The JSON object the "my top artists" handler returns for one artist. */
  datatype ArtistView = ArtistView(id: string, name: string, genres: seq<string>, image: string)

  /** The first image URL, or the empty string when there is no image. */
  function FirstImage(images: seq<string>): (url: string)
    ensures url == "" || url in images
    ensures images != [] ==> url == images[0]
  {
    if images == [] then "" else images[0]
  }

  /**
   * One track as the handlers present it: the artists' names joined with
   * ", " and the album's first image, or "" when the album has none.
   */
  function ViewTrack(t: Track): (v: TrackView)
    ensures v.id == t.id && v.name == t.name
    ensures v.previewUrl == t.previewUrl && v.spotifyUrl == t.spotifyUrl
    ensures v.artist == Text.Join(t.artistNames, ", ")
    ensures t.artistNames == [] ==> v.artist == ""
    ensures |t.artistNames| == 1 ==> v.artist == t.artistNames[0]
    ensures t.artistNames != [] ==> Text.StartsWith(v.artist, t.artistNames[0])
    ensures t.albumImages == [] ==> v.albumImage == ""
    ensures t.albumImages != [] ==> v.albumImage == t.albumImages[0]
  {
    TrackView(t.id, t.name, Text.Join(t.artistNames, ", "), FirstImage(t.albumImages),
              t.previewUrl, t.spotifyUrl)
  }

  /** One artist as the "my top artists" handler presents it. */
  function ViewArtist(a: Artist): (v: ArtistView)
    ensures v.id == a.id && v.name == a.name && v.genres == a.genres
    ensures a.images == [] ==> v.image == ""
    ensures a.images != [] ==> v.image == a.images[0]
  {
    ArtistView(a.id, a.name, a.genres, FirstImage(a.images))
  }

  /** The list comprehension over a page of tracks: one view per item, in order. */
  function ViewTracks(items: seq<Track>): (views: seq<TrackView>)
    ensures |views| == |items|
    ensures forall i :: 0 <= i < |items| ==> views[i] == ViewTrack(items[i])
  {
    seq(|items|, i requires 0 <= i < |items| => ViewTrack(items[i]))
  }

  /** The list comprehension over a page of artists: one view per item, in order. */
  function ViewArtists(items: seq<Artist>): (views: seq<ArtistView>)
    ensures |views| == |items|
    ensures forall i :: 0 <= i < |items| ==> views[i] == ViewArtist(items[i])
  {
    seq(|items|, i requires 0 <= i < |items| => ViewArtist(items[i]))
  }
}
