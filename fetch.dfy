/**
 * fetch_playlist_tracks: request pages of 100 tracks at offsets 0, 100, 200,
 * ... until a page comes back empty or short, then number the tracks 1..n.
 * The remote service is a sequence of answers: the k-th request (offset
 * 100 * k) is answered by `rs[k]`, and any request past the end of `rs` by an
 * empty page.
 */
module TrackFetch {
  import opened Wrappers
  import opened Records

  /** `limit = 100` */
  const Limit: nat := 100

  /** The answer to one `playlist.tracks(limit, offset)` call: a page of tracks, or an exception. */
  datatype PageResponse = Page(items: seq<RawTrack>) | Failure

  function PageAt(rs: seq<PageResponse>, k: nat): PageResponse {
    if k < |rs| then rs[k] else Page([])
  }

  /** A page after which the loop asks for the next one. */
  predicate Full(r: PageResponse) { r.Page? && |r.items| >= Limit }

  /** The tracks gathered from request k on; None when a request raises. */
  function Collect(rs: seq<PageResponse>, k: nat): Option<seq<RawTrack>>
    decreases |rs| - k
  {
    match PageAt(rs, k)
    case Failure => None
    case Page(items) =>
      if |items| == 0 then Some([])
      else if |items| < Limit then Some(items)
      else
        match Collect(rs, k + 1)
        case None => None
        case Some(rest) => Some(items + rest)
  }

  /** The offsets requested from request k on. */
  function Offsets(rs: seq<PageResponse>, k: nat): seq<nat>
    decreases |rs| - k
  {
    [Limit * k] + if Full(PageAt(rs, k)) then Offsets(rs, k + 1) else []
  }

  function Prepend(prefix: seq<RawTrack>, o: Option<seq<RawTrack>>): Option<seq<RawTrack>> {
    match o
    case None => None
    case Some(rest) => Some(prefix + rest)
  }

  /**
   * fetch_playlist_tracks. `found` is false when there is no session or the
   * playlist lookup raises; every exception yields `[]`. `offsets` are the
   * offsets requested, in order.
   */
  method FetchPlaylistTracks(found: bool, rs: seq<PageResponse>) returns (tracks: seq<Track>, offsets: seq<nat>)
    ensures !found ==> tracks == [] && offsets == []
    ensures found ==> offsets == Offsets(rs, 0)
    ensures found && Collect(rs, 0).None? ==> tracks == []
    ensures found && Collect(rs, 0).Some? ==>
      |tracks| == |Collect(rs, 0).value| &&
      forall i :: 0 <= i < |tracks| ==>
        tracks[i] == ToTrack(Collect(rs, 0).value[i], i + 1) && tracks[i].index == i + 1
  {
    tracks, offsets := [], [];
    if !found {
      return;
    }
    var all;
    all, offsets := FetchPages(rs);
    if all.Some? {
      tracks := NumberTracks(all.value);
    }
  }

  /** The paging loop: the tracks of all pages up to the first empty or short one, or None when a request raises. */
  method FetchPages(rs: seq<PageResponse>) returns (all: Option<seq<RawTrack>>, offsets: seq<nat>)
    ensures all == Collect(rs, 0) && offsets == Offsets(rs, 0)
  {
    var gathered: seq<RawTrack> := [];
    var offset: nat := 0;
    var k: nat := 0;
    offsets := [];
    PrependNil(Collect(rs, 0));
    while true
      invariant offset == Limit * k
      invariant Prepend(gathered, Collect(rs, k)) == Collect(rs, 0)
      invariant offsets + Offsets(rs, k) == Offsets(rs, 0)
      decreases |rs| - k
    {
      var response := PageAt(rs, k);
      offsets := offsets + [offset];
      if !Full(response) {
        // an exception, an empty page (`if not tracks: break`) or a short one
        // (`if len(tracks) < limit: break`, after extending) ends the loop
        LastRequest(rs, k);
        assert offsets == Offsets(rs, 0);
        if response.Failure? {
          return None, offsets;
        }
        all := Some(gathered + response.items);
        return;
      }
      var page := response.items;
      NextRequest(rs, k);
      PrependAppend(gathered, page, Collect(rs, k + 1));
      gathered := gathered + page;
      offset := offset + Limit;
      k := k + 1;
    }
  }

  lemma PrependNil(o: Option<seq<RawTrack>>)
    ensures Prepend([], o) == o
  {
    if o.Some? {
      assert [] + o.value == o.value;
    }
  }

  lemma PrependAppend(a: seq<RawTrack>, b: seq<RawTrack>, o: Option<seq<RawTrack>>)
    ensures Prepend(a + b, o) == Prepend(a, Prepend(b, o))
  {
    if o.Some? {
      assert (a + b) + o.value == a + (b + o.value);
    }
  }

  /** After a full page the loop asks for the next one. */
  lemma NextRequest(rs: seq<PageResponse>, k: nat)
    requires Full(PageAt(rs, k))
    ensures Collect(rs, k) == Prepend(PageAt(rs, k).items, Collect(rs, k + 1))
    ensures Offsets(rs, k) == [Limit * k] + Offsets(rs, k + 1)
  {
  }

  /** A page that is not full is the last one asked for. */
  lemma LastRequest(rs: seq<PageResponse>, k: nat)
    requires !Full(PageAt(rs, k))
    ensures Collect(rs, k) == if PageAt(rs, k).Failure? then None else Some(PageAt(rs, k).items)
    ensures Offsets(rs, k) == [Limit * k]
  {
  }

  /** The numbering loop: the record of the track at position i carries index i + 1. */
  method NumberTracks(all: seq<RawTrack>) returns (tracks: seq<Track>)
    ensures |tracks| == |all|
    ensures forall i :: 0 <= i < |all| ==> tracks[i] == ToTrack(all[i], i + 1) && tracks[i].index == i + 1
  {
    tracks := [];
    for i := 0 to |all|
      invariant |tracks| == i
      invariant forall j :: 0 <= j < i ==> tracks[j] == ToTrack(all[j], j + 1)
    {
      tracks := tracks + [ToTrack(all[i], i + 1)];
    }
  }

  /** Every request from k up to, not including, m returned a full page. */
  ghost predicate FullFrom(rs: seq<PageResponse>, k: nat, m: nat) {
    forall j :: k <= j < m ==> Full(PageAt(rs, j))
  }

  /** The tracks of pages k..m-1, in order. */
  function Pages(rs: seq<PageResponse>, k: nat, m: nat): seq<RawTrack>
    decreases m - k
  {
    if k >= m then []
    else (match PageAt(rs, k) case Page(items) => items case Failure => []) + Pages(rs, k + 1, m)
  }

  /**
   * The loop stops at the first page m that is not full: the result is the
   * concatenation of pages 0..m, requested at offsets 0, 100, ..., 100 * m,
   * or None when request m raised.
   */
  lemma {:induction false} FetchStopsAtFirstShortPage(rs: seq<PageResponse>, k: nat, m: nat)
    requires k <= m && FullFrom(rs, k, m) && !Full(PageAt(rs, m))
    ensures Collect(rs, k) == if PageAt(rs, m).Failure? then None else Some(Pages(rs, k, m + 1))
    ensures |Offsets(rs, k)| == m - k + 1
    ensures forall i :: 0 <= i < |Offsets(rs, k)| ==> Offsets(rs, k)[i] == Limit * (k + i)
    decreases m - k
  {
    if k < m {
      assert Full(PageAt(rs, k));
      FetchStopsAtFirstShortPage(rs, k + 1, m);
      assert Pages(rs, k, m + 1) == PageAt(rs, k).items + Pages(rs, k + 1, m + 1);
      match Collect(rs, k + 1)
      case None =>
      case Some(rest) =>
    } else {
      match PageAt(rs, k)
      case Failure =>
      case Page(items) =>
        assert Pages(rs, k, m + 1) == items + [] == items;
    }
  }

  /** Such a page always exists: past the answers given, every request gets an empty page. */
  lemma {:induction false} SomePageIsShort(rs: seq<PageResponse>, k: nat)
    ensures exists m :: k <= m && FullFrom(rs, k, m) && !Full(PageAt(rs, m))
    decreases |rs| - k
  {
    if Full(PageAt(rs, k)) {
      SomePageIsShort(rs, k + 1);
      var m :| k + 1 <= m && FullFrom(rs, k + 1, m) && !Full(PageAt(rs, m));
      assert FullFrom(rs, k, m);
    } else {
      assert FullFrom(rs, k, k);
    }
  }

  /** A track without an artist or album object is listed under "Unknown". */
  lemma MissingNamesAreUnknown(raw: RawTrack, index: nat)
    ensures raw.artist.None? ==> ToTrack(raw, index).artist == "Unknown"
    ensures raw.album.None? ==> ToTrack(raw, index).album == "Unknown"
    ensures raw.artist.Some? ==> ToTrack(raw, index).artist == raw.artist.value
    ensures raw.album.Some? ==> ToTrack(raw, index).album == raw.album.value
  {
  }
}
