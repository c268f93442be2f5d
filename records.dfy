/**
 * The records the tool builds from the remote service's objects: the track
 * dictionaries of fetch_playlist_tracks and the playlist dictionaries of
 * get_all_playlists. A raw field that may be missing on the remote object
 * (read with `getattr(obj, name, default)` or `x.name if x else default`) is an
 * Option here.
 */
module Records {
  import opened Wrappers

  /** A track object of the remote service; `artist`/`album` hold the name of the artist/album object, if any. */
  datatype RawTrack = RawTrack(
    id: string,
    name: string,
    artist: Option<string>,
    album: Option<string>,
    duration: int,
    trackNum: Option<nat>,
    isrc: Option<string>)

  /** The dictionary fetch_playlist_tracks builds per track; `source` is its `track_obj`. */
  datatype Track = Track(
    index: nat,
    id: string,
    name: string,
    artist: string,
    album: string,
    duration: int,
    source: RawTrack)

  const Unknown: string := "Unknown"

  function ArtistName(t: RawTrack): string {
    t.artist.GetOr(Unknown)
  }

  function AlbumName(t: RawTrack): string {
    t.album.GetOr(Unknown)
  }

  /** The dictionary for the track at 1-based position `index`. */
  function ToTrack(raw: RawTrack, index: nat): Track {
    Track(index, raw.id, raw.name, ArtistName(raw), AlbumName(raw), raw.duration, raw)
  }

  /** The creator object of a remote playlist. */
  datatype RawCreator = RawCreator(name: Option<string>, id: Option<string>)

  /** A playlist object of the remote service; timestamps are integer seconds. */
  datatype RawPlaylist = RawPlaylist(
    id: string,
    name: string,
    numTracks: Option<int>,
    numVideos: Option<int>,
    duration: Option<int>,
    created: Option<int>,
    lastUpdated: Option<int>,
    lastItemAddedAt: Option<int>,
    isPublic: Option<bool>,
    description: Option<string>,
    creator: Option<RawCreator>,
    kind: Option<string>,
    listenUrl: Option<string>,
    shareUrl: Option<string>,
    picture: Option<string>,
    squarePicture: Option<string>)

  /** The dictionary get_all_playlists builds per playlist (`kind` is its 'type' entry). */
  datatype Playlist = Playlist(
    id: string,
    name: string,
    tracksCount: int,
    videosCount: int,
    duration: int,
    created: Option<int>,
    lastUpdated: Option<int>,
    lastItemAdded: Option<int>,
    isPublic: bool,
    description: string,
    creator: string,
    creatorId: Option<string>,
    isOwned: bool,
    kind: string,
    url: string,
    shareUrl: string,
    picture: Option<string>,
    squarePicture: Option<string>)

  /**
   * One playlist record: counts default to 0, the type to "UNKNOWN", the
   * creator to "Unknown"; the playlist is owned exactly when it has a creator
   * whose id equals the session's user id.
   */
  function ToPlaylist(raw: RawPlaylist, userId: Option<string>): (p: Playlist)
    ensures p.id == raw.id && p.name == raw.name
    ensures p.isOwned <==> raw.creator.Some? && raw.creator.value.id == userId
    ensures raw.creator.None? ==> p.creator == Unknown && p.creatorId.None?
    ensures p.kind == raw.kind.GetOr("UNKNOWN")
    ensures p.tracksCount == raw.numTracks.GetOr(0) && p.duration == raw.duration.GetOr(0)
  {
    var creatorName := if raw.creator.Some? then raw.creator.value.name.GetOr(Unknown) else Unknown;
    var creatorId := if raw.creator.Some? then raw.creator.value.id else None;
    var isOwned := raw.creator.Some? && creatorId == userId;
    Playlist(
      raw.id, raw.name,
      raw.numTracks.GetOr(0), raw.numVideos.GetOr(0), raw.duration.GetOr(0),
      raw.created, raw.lastUpdated, raw.lastItemAddedAt,
      raw.isPublic.GetOr(false), raw.description.GetOr(""),
      creatorName, creatorId, isOwned,
      raw.kind.GetOr("UNKNOWN"),
      raw.listenUrl.GetOr(""), raw.shareUrl.GetOr(""),
      raw.picture, raw.squarePicture)
  }
}
