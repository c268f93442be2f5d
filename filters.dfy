/**
 * The track view's pipeline in view_playlist_tracks: the duration filter,
 * then the text search, then sort_tracks, then the clamped page window.
 */
module Filters {
  import opened Wrappers
  import opened Text
  import opened Records
  import opened Pagination
  import SortEngine

  /** A list comprehension `[x for x in s if p(x)]`. */
  function Filter<T(!new)>(s: seq<T>, p: T -> bool): (r: seq<T>)
    ensures forall i :: 0 <= i < |r| ==> p(r[i])
    ensures forall x :: multiset(r)[x] == if p(x) then multiset(s)[x] else 0
    ensures IsSubsequence(r, s)
  {
    if |s| == 0 then []
    else
      assert s == [s[0]] + s[1..];
      var rest := Filter(s[1..], p);
      if p(s[0]) then
        assert ([s[0]] + rest)[1..] == rest;
        [s[0]] + rest
      else rest
  }

  /** `r` is `s` with some elements dropped, the rest in their order. */
  predicate IsSubsequence<T(==)>(r: seq<T>, s: seq<T>)
    decreases |s|
  {
    if |r| == 0 then true
    else if |s| == 0 then false
    else (r[0] == s[0] && IsSubsequence(r[1..], s[1..])) || IsSubsequence(r, s[1..])
  }

  lemma {:induction false} IsSubsequenceTransitive<T>(a: seq<T>, b: seq<T>, c: seq<T>)
    requires IsSubsequence(a, b) && IsSubsequence(b, c)
    ensures IsSubsequence(a, c)
    decreases |c|
  {
    if |a| > 0 {
      assert |c| > 0;
      if |b| > 0 && b[0] == c[0] && IsSubsequence(b[1..], c[1..]) {
        if a[0] == b[0] && IsSubsequence(a[1..], b[1..]) {
          IsSubsequenceTransitive(a[1..], b[1..], c[1..]);
        } else {
          IsSubsequenceTransitive(a, b[1..], c[1..]);
        }
      } else {
        IsSubsequenceTransitive(a, b, c[1..]);
      }
    }
  }

  lemma {:induction false} FilterAll<T(!new)>(s: seq<T>, p: T -> bool)
    requires forall x :: p(x)
    ensures Filter(s, p) == s
  {
    if |s| > 0 {
      FilterAll(s[1..], p);
      assert s == [s[0]] + s[1..];
    }
  }

  /** `int(x) if x.isdigit() else None`; the empty string is not digits. */
  function ParseBound(input: string): (b: Option<nat>)
    ensures b.Some? <==> |input| > 0 && AllDigits(input)
  {
    if |input| > 0 && AllDigits(input) then Some(ParseDecimal(input)) else None
  }

  predicate AtLeast(bound: Option<nat>, d: int) { bound.None? || d >= bound.value }
  predicate AtMost(bound: Option<nat>, d: int) { bound.None? || d <= bound.value }

  function MinFilter(tracks: seq<Track>, minInput: string): seq<Track> {
    var b := ParseBound(minInput);
    if b.Some? then Filter(tracks, (t: Track) => AtLeast(b, t.duration)) else tracks
  }

  function MaxFilter(tracks: seq<Track>, maxInput: string): seq<Track> {
    var b := ParseBound(maxInput);
    if b.Some? then Filter(tracks, (t: Track) => AtMost(b, t.duration)) else tracks
  }

  /**
   * filter_tracks_by_duration on the two (stripped) answers: a bound that is
   * all digits applies, anything else is skipped.
   */
  function FilterByDuration(tracks: seq<Track>, minInput: string, maxInput: string): (r: seq<Track>)
    ensures IsSubsequence(r, tracks)
    ensures forall t :: (multiset(r)[t] ==
      if AtLeast(ParseBound(minInput), t.duration) && AtMost(ParseBound(maxInput), t.duration)
      then multiset(tracks)[t] else 0)
  {
    var mid := MinFilter(tracks, minInput);
    var r := MaxFilter(mid, maxInput);
    assert IsSubsequence(tracks, tracks) by { IsSubsequenceReflexive(tracks); }
    assert IsSubsequence(mid, mid) by { IsSubsequenceReflexive(mid); }
    IsSubsequenceTransitive(r, mid, tracks);
    r
  }

  lemma {:induction false} IsSubsequenceReflexive<T>(s: seq<T>)
    ensures IsSubsequence(s, s)
  {
    if |s| > 0 {
      IsSubsequenceReflexive(s[1..]);
    }
  }

  /** Blank (or non-numeric) answers apply no filter. */
  lemma NoBoundsKeepsAll(tracks: seq<Track>, minInput: string, maxInput: string)
    requires !AllDigits(minInput) || |minInput| == 0
    requires !AllDigits(maxInput) || |maxInput| == 0
    ensures FilterByDuration(tracks, minInput, maxInput) == tracks
  {
  }

  /** A track matches when the lower-cased term occurs in its lower-cased name, artist or album. */
  predicate Matches(t: Track, term: string) {
    var q := Lower(term);
    Contains(Lower(t.name), q) || Contains(Lower(t.artist), q) || Contains(Lower(t.album), q)
  }

  /** The search of view_playlist_tracks: no term, or the empty term, shows everything. */
  function SearchTracks(tracks: seq<Track>, term: Option<string>): (r: seq<Track>)
    ensures term.None? || term.value == "" ==> r == tracks
    ensures term.Some? && term.value != "" ==>
      IsSubsequence(r, tracks) &&
      forall t :: multiset(r)[t] == if Matches(t, term.value) then multiset(tracks)[t] else 0
  {
    if term.Some? && term.value != "" then Filter(tracks, (t: Track) => Matches(t, term.value)) else tracks
  }

  /** The empty string occurs in every string: filtering on the empty term would keep every track anyway. */
  lemma EmptyTermMatchesAll(tracks: seq<Track>)
    ensures Filter(tracks, (t: Track) => Matches(t, "")) == tracks
  {
    forall t: Track
      ensures Matches(t, "")
    {
      assert OccursAt(Lower(t.name), Lower(""), 0);
    }
    FilterAll(tracks, (t: Track) => Matches(t, ""));
  }

  /**
   * The view searches the list the duration filter left: together they keep
   * exactly the tracks in the range that match the term, in order.
   */
  lemma SearchAfterDurationFilter(tracks: seq<Track>, minInput: string, maxInput: string, term: string)
    requires term != ""
    ensures var r := SearchTracks(FilterByDuration(tracks, minInput, maxInput), Some(term));
      IsSubsequence(r, tracks) &&
      forall t :: (multiset(r)[t] ==
        if AtLeast(ParseBound(minInput), t.duration) && AtMost(ParseBound(maxInput), t.duration) && Matches(t, term)
        then multiset(tracks)[t] else 0)
  {
    var mid := FilterByDuration(tracks, minInput, maxInput);
    IsSubsequenceTransitive(SearchTracks(mid, Some(term)), mid, tracks);
  }

  /** The result of one view of the track list. */
  datatype TrackView =
    | NoTracks
    | NoMatches
    | Shown(page: int, totalPages: int, first: int, last: int, total: nat, rows: seq<Track>)

  const TracksPerPage: nat := 20

  /**
   * view_playlist_tracks: search, sort, then clamp the requested page into
   * 1..total_pages and show its slice with the 1-based range it covers.
   */
  function ViewTracks(all: seq<Track>, term: Option<string>, sortBy: string, sortOrder: string, page: int): (v: TrackView)
    ensures v.NoTracks? <==> |all| == 0
    ensures v.NoMatches? <==> |all| > 0 && |SearchTracks(all, term)| == 0
    ensures v.Shown? ==>
      (1 <= v.page <= v.totalPages && v.total > 0 &&
       v.totalPages == PageCount(v.total, TracksPerPage) &&
       1 <= |v.rows| <= TracksPerPage && v.last - v.first + 1 == |v.rows|)
  {
    if |all| == 0 then NoTracks
    else
      var shown := SortEngine.SortTracks(SearchTracks(all, term), sortBy, sortOrder);
      if |shown| == 0 then NoMatches
      else
        var totalPages := CeilDiv(|shown|, TracksPerPage);
        var p := Max(1, Min(page, totalPages));
        PageSizes(shown, TracksPerPage, p);
        ShowingRangeIsPage(shown, TracksPerPage, p);
        var (first, last) := ShowingRange(|shown|, TracksPerPage, p);
        Shown(p, totalPages, first, last, |shown|, PageSlice(shown, TracksPerPage, p))
  }

  /** The rows shown are the Paginator's page at the clamped number, and the range is its "Showing" range. */
  lemma ViewTracksIsPaginatorPage(all: seq<Track>, term: Option<string>, sortBy: string, sortOrder: string, page: int)
    requires ViewTracks(all, term, sortBy, sortOrder, page).Shown?
    ensures var v := ViewTracks(all, term, sortBy, sortOrder, page);
      var shown := SortEngine.SortTracks(SearchTracks(all, term), sortBy, sortOrder);
      v.rows == PageSlice(shown, TracksPerPage, v.page) &&
      (v.first, v.last) == ShowingRange(|shown|, TracksPerPage, v.page) &&
      v.page == (if page < 1 then 1 else if page > v.totalPages then v.totalPages else page)
  {
  }

  /** A search that matches everything and the "original" order show the tracks as fetched. */
  lemma FirstPageAsFetched(all: seq<Track>, sortOrder: string)
    requires |all| > 0
    requires forall i :: 0 <= i < |all| ==> all[i].index == i + 1
    ensures ViewTracks(all, None, "original", sortOrder, 1).rows == all[..Min(20, |all|)]
  {
    assert SearchTracks(all, None) == all;
    SortEngine.OriginalOrderIsFetchOrder(all, sortOrder);
    var v := ViewTracks(all, None, "original", sortOrder, 1);
    assert v.page == 1;
    assert v.rows == PageSlice(all, TracksPerPage, 1);
  }
}
