/**
 * The state TidalTool keeps between operations: the session, the user id,
 * the playlist cache with its timestamp and the sort settings, and the two
 * operations that change the cache: get_all_playlists and the randomize
 * workflow. The clock is an integer `now` in seconds; the remote service is
 * a parameter describing its answers.
 */
module Tool {
  import opened Wrappers
  import opened Records
  import opened Pagination
  import opened TrackFetch
  import opened Randomize

  /** `CACHE_TTL_SECONDS` */
  const CacheTtl: int := 300

  /** The answer to `playlist_and_favorite_playlists()`: the playlist objects, or an exception. */
  datatype Listing = Listed(raws: seq<RawPlaylist>) | ListFailed

  /**
   * A read is served from the cache exactly when there is no forced refresh,
   * the cached list is present and non-empty, a timestamp is set, and fewer
   * than 300 seconds have passed since it.
   */
  predicate CacheHit(forceRefresh: bool, cache: Option<seq<Playlist>>, time: Option<int>, now: int) {
    !forceRefresh && cache.Some? && |cache.value| > 0 && time.Some? && now - time.value < CacheTtl
  }

  /** A cached empty list is never served: the next read asks the service again. */
  lemma EmptyCacheNeverHits(time: Option<int>, now: int)
    ensures !CacheHit(false, Some([]), time, now)
  {
  }

  /** A list stored at `t` is served to every later unforced read until 300 seconds have passed. */
  lemma FreshCacheHits(ps: seq<Playlist>, t: int, now: int)
    requires |ps| > 0
    ensures CacheHit(false, Some(ps), Some(t), now) <==> now < t + CacheTtl
  {
  }

  /** The remote calls of the randomize workflow, in the order they are made. */
  datatype RemoteCall = CreatePlaylist(title: string, description: string) | AddTracks(ids: seq<string>)

  datatype RandomizeOutcome = NoTracksFound | Created(name: string, trackCount: nat) | Failed

  /** The track objects fetch_playlist_tracks delivers: `[]` on any exception. */
  function Fetched(found: bool, rs: seq<PageResponse>): seq<RawTrack> {
    if found && Collect(rs, 0).Some? then Collect(rs, 0).value else []
  }

  function Map<T, U>(s: seq<T>, f: T -> U): (r: seq<U>)
    ensures |r| == |s| && forall i :: 0 <= i < |s| ==> r[i] == f(s[i])
  {
    seq(|s|, i requires 0 <= i < |s| => f(s[i]))
  }

  function Id(t: RawTrack): string { t.id }

  /** `[track.id for track in all_tracks]` after the shuffle. */
  function ShuffledIds(raws: seq<RawTrack>, draws: seq<nat>): seq<string> {
    Map(Shuffled(raws, draws), Id)
  }

  /** The answer to the k-th `add` call; answers not supplied succeed. */
  predicate AddSucceeds(addOk: seq<bool>, k: nat) { k >= |addOk| || addOk[k] }

  /** The first of the `count` batches whose `add` raises, or `count` when none does. */
  function FirstFailure(addOk: seq<bool>, k: nat, count: nat): (f: nat)
    requires k <= count
    ensures k <= f <= count
    ensures forall j :: k <= j < f ==> AddSucceeds(addOk, j)
    ensures f < count ==> !AddSucceeds(addOk, f)
    decreases count - k
  {
    if k == count || !AddSucceeds(addOk, k) then k else FirstFailure(addOk, k + 1, count)
  }

  function AddCalls(bs: seq<seq<string>>): seq<RemoteCall> {
    Map(bs, (b: seq<string>) => AddTracks(b))
  }

  /** `f"{name} [Shuffled]"` */
  function ShuffledName(name: string): string { name + " [Shuffled]" }

  class TidalTool {
    /** `self.session is not None` */
    var connected: bool
    var userId: Option<string>
    var playlistsCache: Option<seq<Playlist>>
    var cacheTime: Option<int>
    var sortBy: string
    var sortOrder: string
    var trackSortBy: string
    var trackSortOrder: string

    /** A cached list always carries the time it was stored. */
    ghost predicate Valid()
      reads this
    {
      playlistsCache.Some? ==> cacheTime.Some?
    }

    /** __init__: no session, an empty cache, playlists by name and tracks in playlist order, ascending. */
    constructor ()
      ensures Valid()
      ensures !connected && userId.None? && playlistsCache.None? && cacheTime.None?
      ensures sortBy == "name" && sortOrder == "asc" && trackSortBy == "original" && trackSortOrder == "asc"
    {
      connected := false;
      userId := None;
      playlistsCache := None;
      cacheTime := None;
      sortBy := "name";
      sortOrder := "asc";
      trackSortBy := "original";
      trackSortOrder := "asc";
    }

    /** A successful sign-in stores the session and the user's id; the cache is untouched. */
    method SignIn(uid: string)
      requires Valid()
      modifies this`connected, this`userId
      ensures Valid() && connected && userId == Some(uid)
    {
      connected := true;
      userId := Some(uid);
    }

    /** The processing loop of get_all_playlists: one record per playlist object, in order. */
    method ProcessPlaylists(raws: seq<RawPlaylist>) returns (ps: seq<Playlist>)
      ensures |ps| == |raws|
      ensures forall i :: 0 <= i < |raws| ==> ps[i] == ToPlaylist(raws[i], userId)
      ensures forall i :: 0 <= i < |raws| ==> (ps[i].isOwned <==> raws[i].creator.Some? && raws[i].creator.value.id == userId)
    {
      ps := [];
      for i := 0 to |raws|
        invariant |ps| == i
        invariant forall j :: 0 <= j < i ==> ps[j] == ToPlaylist(raws[j], userId)
      {
        ps := ps + [ToPlaylist(raws[i], userId)];
      }
    }

    /**
     * get_all_playlists. `called` is whether the service was asked for the
     * list. A hit returns the cached list; without a session, or when the
     * service raises, the result is `[]` and the cache is untouched; a
     * successful fetch replaces both the list and its time.
     */
    method GetAllPlaylists(forceRefresh: bool, now: int, listing: Listing) returns (r: seq<Playlist>, called: bool)
      requires Valid()
      modifies this`playlistsCache, this`cacheTime
      ensures Valid()
      ensures CacheHit(forceRefresh, old(playlistsCache), old(cacheTime), now) ==>
        r == old(playlistsCache).value && !called &&
        playlistsCache == old(playlistsCache) && cacheTime == old(cacheTime)
      ensures !CacheHit(forceRefresh, old(playlistsCache), old(cacheTime), now) ==>
        (called <==> connected)
      ensures !CacheHit(forceRefresh, old(playlistsCache), old(cacheTime), now) && (!connected || listing.ListFailed?) ==>
        r == [] && playlistsCache == old(playlistsCache) && cacheTime == old(cacheTime)
      ensures !CacheHit(forceRefresh, old(playlistsCache), old(cacheTime), now) && connected && listing.Listed? ==>
        |r| == |listing.raws| &&
        (forall i :: 0 <= i < |r| ==> r[i] == ToPlaylist(listing.raws[i], userId)) &&
        playlistsCache == Some(r) && cacheTime == Some(now)
    {
      if CacheHit(forceRefresh, playlistsCache, cacheTime, now) {
        return playlistsCache.value, false;
      }
      if !connected {
        return [], false;
      }
      called := true;
      match listing {
        case ListFailed =>
          r := [];
        case Listed(raws) =>
          r := ProcessPlaylists(raws);
          playlistsCache := Some(r);
          cacheTime := Some(now);
      }
    }

    /**
     * randomize_playlist_unified once the user has confirmed: fetch, shuffle,
     * create "<name> [Shuffled]", add the ids in batches of 100, and only when
     * every call succeeded drop the playlist cache. `lookupOk` is whether the
     * playlist lookup succeeds, `rs` the pages of tracks, `draws` the random
     * draws of the shuffle, `createOk` and `addOk` the answers to the create
     * and add calls.
     */
    method RandomizePlaylist(p: Playlist, lookupOk: bool, rs: seq<PageResponse>, draws: seq<nat>, createOk: bool, addOk: seq<bool>)
      returns (calls: seq<RemoteCall>, outcome: RandomizeOutcome)
      requires Valid()
      modifies this`playlistsCache
      ensures Valid()
      ensures var raws := Fetched(connected && lookupOk, rs);
        |raws| == 0 ==> calls == [] && outcome == NoTracksFound && playlistsCache == old(playlistsCache)
      ensures var raws := Fetched(connected && lookupOk, rs);
        |raws| > 0 && !createOk ==>
          calls == [CreatePlaylist(ShuffledName(p.name), "")] && outcome == Failed &&
          playlistsCache == old(playlistsCache)
      ensures var raws := Fetched(connected && lookupOk, rs);
        var bs := Batches(ShuffledIds(raws, draws));
        var f := FirstFailure(addOk, 0, |bs|);
        |raws| > 0 && createOk ==>
          calls == [CreatePlaylist(ShuffledName(p.name), "")] + AddCalls(bs[..Min(f + 1, |bs|)]) &&
          (f < |bs| ==> outcome == Failed && playlistsCache == old(playlistsCache)) &&
          (f == |bs| ==> outcome == Created(ShuffledName(p.name), |raws|) && playlistsCache.None?)
    {
      var fetched, _ := FetchPlaylistTracks(connected && lookupOk, rs);
      ghost var raws := Fetched(connected && lookupOk, rs);
      var all := Map(fetched, (t: Track) => t.source);
      assert all == raws;
      if |all| == 0 {
        return [], NoTracksFound;
      }
      var a := new RawTrack[|all|](i requires 0 <= i < |all| => all[i]);
      assert a[..] == all;
      Shuffle(a, draws);
      var shuffled := a[..];
      var newName := ShuffledName(p.name);
      calls := [CreatePlaylist(newName, "")];
      if !createOk {
        return calls, Failed;
      }
      var ids := Map(shuffled, Id);
      assert ids == ShuffledIds(raws, draws);
      var sent, ok := AddBatches(ids, addOk);
      calls := calls + sent;
      if !ok {
        return calls, Failed;
      }
      playlistsCache := None;
      outcome := Created(newName, |all|);
    }
  }

  /**
   * The batch loop: `add(ids[i:i+100])` for i in 0, 100, ... until a call
   * raises. `ok` is whether every batch went through.
   */
  method AddBatches(ids: seq<string>, addOk: seq<bool>) returns (sent: seq<RemoteCall>, ok: bool)
    ensures var bs := Batches(ids);
      var f := FirstFailure(addOk, 0, |bs|);
      sent == AddCalls(bs[..Min(f + 1, |bs|)]) && (ok <==> f == |bs|)
  {
    ghost var bs := Batches(ids);
    ghost var f := FirstFailure(addOk, 0, |bs|);
    BatchesCoverIds(ids);
    sent := [];
    var start := 0;
    var k := 0;
    while start < |ids|
      invariant k <= |bs| && start == BatchSize * k
      invariant k < |bs| <==> start < |ids|
      invariant k <= f
      invariant sent == AddCalls(bs[..k])
      decreases |ids| - start
    {
      BatchAt(ids, k);
      var batch := ids[start .. Min(start + BatchSize, |ids|)];
      AddCallsSnoc(bs, k);
      sent := sent + [AddTracks(batch)];
      if !AddSucceeds(addOk, k) {
        FirstFailureAt(addOk, |bs|, k);
        assert bs[..Min(f + 1, |bs|)] == bs[..k + 1];
        return sent, false;
      }
      start := start + BatchSize;
      k := k + 1;
      BatchesBound(ids, k);
    }
    assert bs[..Min(f + 1, |bs|)] == bs[..k];
    ok := true;
  }

  lemma FirstFailureAt(addOk: seq<bool>, count: nat, k: nat)
    requires k < count && k <= FirstFailure(addOk, 0, count) && !AddSucceeds(addOk, k)
    ensures FirstFailure(addOk, 0, count) == k
  {
  }

  lemma AddCallsSnoc(bs: seq<seq<string>>, k: nat)
    requires k < |bs|
    ensures AddCalls(bs[..k + 1]) == AddCalls(bs[..k]) + [AddTracks(bs[k])]
  {
    assert bs[..k + 1] == bs[..k] + [bs[k]];
  }

  /** Batch `k` exists exactly while its offset `100k` is inside the id list. */
  lemma {:induction false} BatchesBound<T>(ids: seq<T>, k: nat)
    requires k <= |Batches(ids)|
    ensures k < |Batches(ids)| <==> BatchSize * k < |ids|
  {
    if k < |Batches(ids)| {
      BatchAt(ids, k);
    } else {
      BatchesCoverIds(ids);
      assert |ids| <= CeilDiv(|ids|, BatchSize) * BatchSize;
    }
  }

  /** Mapping commutes with the shuffle: shuffling the tracks and shuffling their ids agree. */
  lemma {:induction false} ShuffleDownMap<T, U>(s: seq<T>, f: T -> U, i: int, draws: seq<nat>)
    ensures Map(ShuffleDown(s, i, draws), f) == ShuffleDown(Map(s, f), i, draws)
    decreases i
  {
    if 0 < i < |s| {
      var j := Pick(draws, |s|, i);
      assert Map(Swap(s, i, j), f) == Swap(Map(s, f), i, j);
      ShuffleDownMap(Swap(s, i, j), f, i - 1, draws);
    }
  }

  /**
   * Together, the batches of a run that succeeded carry every fetched track's
   * id exactly as often as the playlist holds it, in the shuffled order.
   */
  lemma SentIdsArePermutation(raws: seq<RawTrack>, draws: seq<nat>)
    ensures Flatten(Batches(ShuffledIds(raws, draws))) == ShuffledIds(raws, draws)
    ensures multiset(ShuffledIds(raws, draws)) == multiset(Map(raws, Id))
  {
    var ids := Map(raws, Id);
    BatchesCoverIds(ShuffledIds(raws, draws));
    ShuffleDownMap(raws, Id, |raws| - 1, draws);
    assert ShuffledIds(raws, draws) == ShuffleDown(ids, |raws| - 1, draws);
    assert Shuffled(ids, draws) == ShuffleDown(ids, |ids| - 1, draws);
    ShuffledPermutes(ids, draws);
  }
}
