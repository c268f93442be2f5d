/**
 * sort_playlists and sort_tracks of TidalTool: the key each setting selects,
 * and the stable sort they apply. A setting that names no key returns the
 * list as it is.
 */
module SortEngine {
  import opened Wrappers
  import opened Text
  import opened Records
  import opened Sorting

  /** `x or datetime.min`: a missing timestamp sorts below every present one. */
  function TimeKey(t: Option<int>): Key {
    match t
    case None => Bottom
    case Some(v) => Num(v)
  }

  function NameKey(p: Playlist): Key { Str(Lower(p.name)) }
  function TracksCountKey(p: Playlist): Key { Num(p.tracksCount) }
  function PlaylistDurationKey(p: Playlist): Key { Num(p.duration) }
  function CreatedKey(p: Playlist): Key { TimeKey(p.created) }
  function UpdatedKey(p: Playlist): Key { TimeKey(p.lastUpdated) }
  /** `(type, name.lower())`: the type is compared as written, the name case-insensitively. */
  function TypeKey(p: Playlist): Key { Pair(Str(p.kind), Str(Lower(p.name))) }

  /** The key of each playlist sort setting; None for a setting sort_playlists does not know. */
  function PlaylistKey(sortBy: string): Option<Playlist -> Key> {
    if sortBy == "name" then Some(NameKey)
    else if sortBy == "tracks" then Some(TracksCountKey)
    else if sortBy == "duration" then Some(PlaylistDurationKey)
    else if sortBy == "created" then Some(CreatedKey)
    else if sortBy == "updated" then Some(UpdatedKey)
    else if sortBy == "type" then Some(TypeKey)
    else None
  }

  /** Only the exact order "desc" reverses. */
  function Descending(sortOrder: string): bool { sortOrder == "desc" }

  /** sort_playlists: a stable sort on the selected key; an unknown setting leaves the list untouched. */
  function SortPlaylists(ps: seq<Playlist>, sortBy: string, sortOrder: string): (r: seq<Playlist>)
    ensures multiset(r) == multiset(ps)
    ensures PlaylistKey(sortBy).None? ==> r == ps
    ensures PlaylistKey(sortBy).Some? ==>
      Sorted(r, PlaylistKey(sortBy).value, Descending(sortOrder)) && Stable(r, ps, PlaylistKey(sortBy).value)
  {
    match PlaylistKey(sortBy)
    case None => ps
    case Some(key) =>
      SortBySorted(ps, key, Descending(sortOrder));
      SortByStable(ps, key, Descending(sortOrder));
      SortBy(ps, key, Descending(sortOrder))
  }

  function IndexKey(t: Track): Key { Num(t.index) }
  /** `(artist.lower(), name.lower())` */
  function ArtistKey(t: Track): Key { Pair(Str(Lower(t.artist)), Str(Lower(t.name))) }
  function SongKey(t: Track): Key { Str(Lower(t.name)) }
  /** `(album.lower(), index)`: album order, then playlist position within an album. */
  function AlbumKey(t: Track): Key { Pair(Str(Lower(t.album)), Num(t.index)) }
  function TrackDurationKey(t: Track): Key { Num(t.duration) }

  /** The key of each track sort setting other than "original". */
  function TrackKey(sortBy: string): Option<Track -> Key> {
    if sortBy == "artist" then Some(ArtistKey)
    else if sortBy == "song" then Some(SongKey)
    else if sortBy == "album" then Some(AlbumKey)
    else if sortBy == "duration" then Some(TrackDurationKey)
    else None
  }

  /**
   * sort_tracks: "original" sorts by playlist position and ignores the order
   * setting; the other settings sort stably on their key; an unknown one
   * leaves the list untouched.
   */
  function SortTracks(ts: seq<Track>, sortBy: string, sortOrder: string): (r: seq<Track>)
    ensures multiset(r) == multiset(ts)
    ensures sortBy == "original" ==> Sorted(r, IndexKey, false) && Stable(r, ts, IndexKey)
    ensures sortBy != "original" && TrackKey(sortBy).None? ==> r == ts
    ensures sortBy != "original" && TrackKey(sortBy).Some? ==>
      Sorted(r, TrackKey(sortBy).value, Descending(sortOrder)) && Stable(r, ts, TrackKey(sortBy).value)
  {
    if sortBy == "original" then
      SortBySorted(ts, IndexKey, false);
      SortByStable(ts, IndexKey, false);
      SortBy(ts, IndexKey, false)
    else
      match TrackKey(sortBy)
      case None => ts
      case Some(key) =>
        SortBySorted(ts, key, Descending(sortOrder));
        SortByStable(ts, key, Descending(sortOrder));
        SortBy(ts, key, Descending(sortOrder))
  }

  /** Sorting by name puts lower-cased names in ascending (or, for "desc", descending) string order. */
  lemma SortByNameOrdersNames(ps: seq<Playlist>, sortOrder: string, i: int, j: int)
    requires 0 <= i < j < |SortPlaylists(ps, "name", sortOrder)|
    ensures var r := SortPlaylists(ps, "name", sortOrder);
      if Descending(sortOrder) then LexLe(Lower(r[j].name), Lower(r[i].name))
      else LexLe(Lower(r[i].name), Lower(r[j].name))
  {
    var r := SortPlaylists(ps, "name", sortOrder);
    assert Le(NameKey, Descending(sortOrder), r[i], r[j]);
  }

  /** "desc" is not a reversal: playlists whose names differ only in case keep their order either way. */
  lemma DescendingKeepsTies(p: Playlist, q: Playlist, sortOrder: string)
    requires Lower(p.name) == Lower(q.name)
    ensures SortPlaylists([p, q], "name", sortOrder) == [p, q]
  {
    KeyLeReflexive(NameKey(p));
    assert [p, q][1..] == [q];
  }

  /** Tracks as fetched (position i holds index i + 1) come back unchanged from "original". */
  lemma {:induction false} OriginalOrderIsFetchOrder(ts: seq<Track>, sortOrder: string)
    requires forall i :: 0 <= i < |ts| ==> ts[i].index == i + 1
    ensures SortTracks(ts, "original", sortOrder) == ts
  {
    assert Sorted(ts, IndexKey, false);
    SortBySortedInput(ts, IndexKey, false);
  }

  /** Sorting by album keeps the tracks of one album in playlist order. */
  lemma AlbumSortGroupsAlbums(ts: seq<Track>, sortOrder: string, i: int, j: int)
    requires !Descending(sortOrder)
    requires 0 <= i < j < |SortTracks(ts, "album", sortOrder)|
    ensures var r := SortTracks(ts, "album", sortOrder);
      Lower(r[i].album) == Lower(r[j].album) ==> r[i].index <= r[j].index
  {
    var r := SortTracks(ts, "album", sortOrder);
    assert KeyLe(AlbumKey(r[i]), AlbumKey(r[j]));
    if Lower(r[i].album) == Lower(r[j].album) {
      assert KeyLe(Num(r[i].index), Num(r[j].index));
    }
  }
}
