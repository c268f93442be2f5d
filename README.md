# TIDAL playlist tool: the data engine, in Dafny

This project models the playlist and track data engine of the TIDAL playlist
tool. The tool is a terminal program that lists a user's playlists, browses and
sorts their tracks, exports them as JSON, CSV or text, and rebuilds a playlist
in shuffled order.

The model covers these parts:

- **Playlist cache.** `get_all_playlists` keeps a cache with a timestamp and a
  300-second lifetime.
- **Paged track fetch.** `fetch_playlist_tracks` reads pages of 100 tracks.
- **Sorting.** `sort_playlists` and `sort_tracks` are stable sorts keyed by one
  field or by a tuple of fields.
- **Filters.** The duration filter and the case-insensitive search, plus the
  clamped page window of the track view.
- **Randomize workflow.** Fetch, shuffle, create the playlist, add ids in
  batches of 100, then drop the cache.
- **Export records.** The JSON document, the CSV rows and the TXT lines, and
  the file names they are written to.
- **String helpers.** `format_duration`, `sanitize_filename`,
  `truncate_string` and `wrap_text`.
- **Paginator.** The `Paginator` class of `display_framework.py`.

Code that works step by step stays imperative:

- **Classes:**
  - `Tool.TidalTool` has the cache fields.
  - `Pagination.Paginator` has the movable `currentPage`.
- **Loop methods:**
  - the cache fill;
  - the paging loop;
  - the track numbering;
  - the sanitising loop;
  - the word-wrapping loop;
  - the exporters' loops;
  - the batch loop.
- **In-place array shuffle.** The Fisher-Yates shuffle works on an array.

Each method is proved against a function that specifies it. The properties are
then proved about those functions.

Modules, one per part of the program:

| module | file | models |
|---|---|---|
| `Wrappers` | wrappers.dfy | `Option`, for Python's `None` |
| `Text` | text.dfy | ASCII `lower`, `in` on strings, string `<=`, decimal rendering and parsing, `join` |
| `Helpers` | helpers.dfy | `format_duration`, `sanitize_filename`, `truncate_string` |
| `Wrap` | wrap.dfy | `wrap_text` |
| `Records` | records.dfy | the track and playlist dictionaries built from remote objects |
| `Pagination` | pagination.dfy | `Paginator`, and the page arithmetic shared with the track view |
| `Sorting` | sorting.dfy | `sorted(..., key=..., reverse=...)`: a stable insertion sort on `Key` values |
| `SortEngine` | sortengine.dfy | `sort_playlists`, `sort_tracks` |
| `Filters` | filters.dfy | the duration filter, the search, the page window of `view_playlist_tracks` |
| `TrackFetch` | fetch.dfy | `fetch_playlist_tracks` |
| `Export` | export.dfy | `export_json`, `export_csv`, `export_txt` |
| `Randomize` | randomize.dfy | `random.shuffle` and the batching of ids |
| `Tool` | tool.dfy | the `TidalTool` state, `get_all_playlists`, `randomize_playlist_unified` |

## Parameters for what the model does not compute

- **Clock.** It is an integer `now` in seconds. One clock read serves both the
  freshness test and the stored time.
- **Export timestamps.** They are a string parameter `exportedAt`.
- **Playlist list call.** The service's answer to it is a `Listing`: the
  playlist objects, or `ListFailed` for an exception.
- **Track pages.** They are a sequence `rs` of `PageResponse`. The k-th request,
  at offset 100·k, is answered by `rs[k]`. A request past the end of `rs` gets
  an empty page. `Failure` stands for an exception. That last answer is what
  makes the paging loop end in the model: the source's `while True`
  (tidal_tool.py:664-683) has no bound of its own, and against a service that
  kept answering with full pages it would not end.
- **Playlist lookup.** Whether it succeeds is a boolean.
- **Create and add calls.** Their answers are booleans. An add call
  beyond the given answers succeeds.
- **Remote calls made.** The randomize workflow returns them as a trace of
  `RemoteCall` values.
- **Random draws.** `random.shuffle` uses CPython's Fisher-Yates loop. Its
  `randbelow(i + 1)` results come from a sequence of draws, reduced modulo
  `i + 1`.

## Behaviour worth knowing

The model follows the code in each of these cases.

- **Cached empty list.** A cache hit also needs a non-empty cached list, so a
  cached empty list is never served (tidal_tool.py:577; `Tool.EmptyCacheNeverHits`).
- **When paging stops.** Paging stops at an empty page as well as at a short one
  (tidal_tool.py:668-680; `TrackFetch.LastRequest`).
- **Fetch errors.** Any exception during the fetch returns `[]` and discards the
  pages already read (tidal_tool.py:702-704). The randomize workflow then
  reports "No tracks found" (tidal_tool.py:1524-1527), not a failure.
- **New playlist name.** The new playlist is always named `"<name> [Shuffled]"`
  (tidal_tool.py:1501; `Tool.ShuffledName`).
- **Shuffle.** `random.shuffle` (tidal_tool.py:1531) is modelled as CPython's
  swap loop over given draws. The model proves that the result is a
  permutation, not that the draws are uniform.
- **Negative durations.** Durations are whatever integer the service returns.
  `format_duration` is modelled for every integer (tidal_tool.py:232-244), and
  the round trip is proved for non-negative ones.

## Model

| member | source | states |
|---|---|---|
| `Helpers.DurationParts` | tidal_tool.py:237-239 | `hours*3600 + minutes*60 + secs == seconds`, minutes and seconds below 60, and for a non-negative duration hours is positive exactly from 3600 seconds on |
| `Helpers.Pad2` | tidal_tool.py:242-244 | `{:02d}` of a number below 100 is exactly two digits |
| `Helpers.FormatDuration` | tidal_tool.py:232-244 | `"0:00"` for a missing or zero duration, and every result ends in `:SS` with two digits; its body is `format_duration`, and its meaning is stated by `Helpers.FormatDurationRoundTrip` and `Helpers.FormatDurationShape` |
| `Helpers.FormatDurationRoundTrip` | tidal_tool.py:232-244 | reading the rendered duration back (`ParseDuration`, an independent clock parser) gives the duration, for every non-negative duration including the `"0:00"` case |
| `Helpers.FormatDurationShape` | tidal_tool.py:241-244 | the text has two colons (H:MM:SS) exactly when the duration is at least an hour, else one (M:SS) |
| `Helpers.SplitHoursClock` | tidal_tool.py:242 | an `H:MM:SS` text splits at its last colon and then at the first, and its head is not a bare number |
| `Helpers.ClockValueOneColon` | tidal_tool.py:244 | the M:SS form reads back as `minutes*60 + secs` |
| `Helpers.ClockValueTwoColons` | tidal_tool.py:242 | the H:MM:SS form reads back as `hours*3600 + minutes*60 + secs` |
| `Helpers.HoursForm` | tidal_tool.py:241-242 | from an hour on, the text is `hours:MM:SS` and splits into those three numbers |
| `Helpers.MinutesForm` | tidal_tool.py:234-235 | below an hour, including 0 (`"0:00"`), the text is `M:SS` and splits into those two numbers |
| `Helpers.SanitizeFilename` | tidal_tool.py:156-161 | the replace loop yields `Sanitized(filename)`: same length, no character of `<>:"/\|?*` left, every other character kept in place |
| `Helpers.SanitizedIdempotent` | tidal_tool.py:156-161 | sanitising twice is sanitising once |
| `Helpers.PyPrefix` | tidal_tool.py:358 | Python's `s[:k]`, with a negative `k` counting from the end: its length, and that it is a prefix |
| `Helpers.TruncateString` | tidal_tool.py:352-358 | `""` for None; the text when it fits; otherwise it ends in `"..."` after a prefix of the text, has exactly `max_length` characters when `max_length >= 3`, and is longer than `max_length` when `max_length < 3` |
| `Wrap.Words` | tidal_tool.py:365 | `text.split()`: every element is a non-empty run without whitespace; that nothing else is dropped is stated by `Wrap.WrapKeepsWords` |
| `Wrap.Greedy` | tidal_tool.py:370-384 | the grouping the loop computes; the body is its meaning, and its properties are `Wrap.GreedyKeepsWords`, `Wrap.GreedyNonEmpty`, `Wrap.GreedyFits` and `Wrap.FirstLineBreaksEarly` |
| `Wrap.WrapText` | tidal_tool.py:360-386 | the result is the greedy line grouping of the words, each line prefixed by the indent, joined by newlines; `""` for an empty text |
| `Wrap.WrapLines` | tidal_tool.py:367-384 | the loop over the words emits exactly the rendered lines of the greedy grouping |
| `Wrap.GreedyKeepsWords` | tidal_tool.py:370-384 | the lines hold the pending line followed by the remaining words, none lost, duplicated or reordered |
| `Wrap.WrapKeepsWords` | tidal_tool.py:365-386 | the lines of `wrap_text` concatenate to `text.split()`, and no line is empty |
| `Wrap.GreedyNonEmpty` | tidal_tool.py:376-384 | every group the loop closes holds a word |
| `Wrap.GreedyFits` | tidal_tool.py:376-381 | under the loop's length bookkeeping, every group of two or more words fits in `width` |
| `Wrap.WrapFits` | tidal_tool.py:376-381 | no rendered line of two or more words is longer than `width` |
| `Wrap.FirstLineBreaksEarly` | tidal_tool.py:368 | `"a bb"` at width 4 with no indent is split into two lines although `"a bb"` has 4 characters, so the break was not forced |
| `Wrap.GreedyBreaksOnlyWhenNeeded` | tidal_tool.py:376-381 | with exact length bookkeeping, a line is closed only when the next word would not fit in `width` |
| `Wrap.FittedBreaksOnlyWhenNeeded` | tidal_tool.py:360-386 | the corrected wrapping breaks only when forced and keeps exactly the words of the text |
| `Records.ToTrack` | tidal_tool.py:687-698 | the record of one track; the body is its meaning, and `TrackFetch.MissingNamesAreUnknown` and `TrackFetch.NumberTracks` state its properties |
| `Records.ToPlaylist` | tidal_tool.py:599-632 | id and name copied; owned exactly when a creator exists whose id is the user's id; no creator gives "Unknown" and no creator id; type defaults to `"UNKNOWN"`, counts and duration to 0 |
| `Pagination.CeilDiv` | display_framework.py:144 | `(n + size - 1) // size` is zero for no items, else the least `c` with `n <= c*size` |
| `Pagination.PageCount` | display_framework.py:144 | `max(1, ceil(n / size))`: at least 1, exactly 1 for no items, and the least page count covering `n` |
| `Pagination.PageSlice` | display_framework.py:147-153 | `[]` outside 1..total_pages, otherwise `items[(p-1)*size : min((p-1)*size + size, n)]`, never more than `size` items |
| `Pagination.PagesFromSuffix` | display_framework.py:147-153 | pages p..total_pages concatenate to the items from `(p-1)*size` on |
| `Pagination.PagesPartition` | display_framework.py:147-153 | pages 1..total_pages concatenate to the items, with no gap and no overlap |
| `Pagination.PageSizes` | display_framework.py:151-153 | every page but the last holds `size` items, the last holds the remainder, and no page is empty when there are items |
| `Pagination.PageArith` | display_framework.py:149-152 | a page starting at or before the end is past the last page only when it starts exactly at the end, and a page reaching past the end is the last one |
| `Pagination.ShowingRange` | display_framework.py:175-176 | the two numbers of "Showing s-e"; the body is its meaning, and `Pagination.ShowingRangeIsPage` states that they name the current page |
| `Pagination.ShowingRangeIsPage` | display_framework.py:173-177 | "Showing s-e" names exactly the positions of the current page, and an empty list shows `1-0` |
| `Pagination.FortyFiveItems` | display_framework.py:144-153 | 45 items at 20 per page give 3 pages, page 3 holds 5 items, page 4 is empty |
| `Pagination.Paginator.constructor` | display_framework.py:139-145 | the items and size are stored, `total_items == len(items)`, `total_pages == PageCount`, `current_page == 1`, and the invariant `1 <= current_page <= total_pages` holds |
| `Pagination.Paginator.GetPage` | display_framework.py:147-153 | `[]` for a page outside 1..total_pages, else the slice at `(p-1)*size`, at most `size` items |
| `Pagination.Paginator.GetCurrentPage` | display_framework.py:155-157 | equals `get_page(current_page)`, and is non-empty when there are items |
| `Pagination.Paginator.NextPage` | display_framework.py:159-164 | moves forward and returns true exactly when `current_page < total_pages`; otherwise nothing changes; the invariant is kept |
| `Pagination.Paginator.PreviousPage` | display_framework.py:166-171 | moves back and returns true exactly when `current_page > 1`; otherwise nothing changes; the invariant is kept |
| `Pagination.Paginator.GetPageInfo` | display_framework.py:173-177 | the exact text `Page c of t \| Showing s-e of n`, with `s = (c-1)*size + 1` and `e = min(c*size, n)`, and `s >= 1`, `e >= 0` |
| `Sorting.KeyLeTotal` | tidal_tool.py:706-742 | any two sort keys (numbers, strings, tuples, `datetime.min`) are comparable |
| `Sorting.KeyLeAntisymmetric` | tidal_tool.py:706-742 | keys that compare both ways are equal |
| `Sorting.KeyLeTransitive` | tidal_tool.py:706-742 | the key order is transitive, tuples included |
| `Sorting.SortBy` | tidal_tool.py:706-742 | `sorted(..., key=..., reverse=...)`: a permutation of its input; ordered by `Sorting.SortBySorted`, stable by `Sorting.SortByStable`, and the only such result by `Sorting.StableSortUnique` |
| `Sorting.SortBySorted` | tidal_tool.py:706-742 | `sorted(..., reverse=r)` gives a sequence ordered by the key, descending when `r` |
| `Sorting.SortByStable` | tidal_tool.py:706-742 | the elements of each key keep their input order, in both directions |
| `Sorting.SortBySortedInput` | tidal_tool.py:727-729 | a sequence already in order is returned unchanged |
| `Sorting.StableSortUnique` | tidal_tool.py:706-742 | two ordered sequences with the same groups of equal keys, each group in the same order, are equal, so any stable sort (Timsort included) gives the result of this one |
| `Sorting.StableSameElements` | tidal_tool.py:706-742 | a stable rearrangement holds every element of its input |
| `Sorting.StableNonEmpty` | tidal_tool.py:706-742 | a stable rearrangement is empty exactly when its input is |
| `SortEngine.SortPlaylists` | tidal_tool.py:706-723 | a permutation of the input; an unknown setting returns the input; a known one is ordered by its key (name, tracks, duration, created, updated, or (type, name)) with ties kept in input order |
| `SortEngine.SortTracks` | tidal_tool.py:725-742 | a permutation of the input; `"original"` is ascending by index whatever the order setting; an unknown setting returns the input; the others are ordered by their key with ties kept in input order |
| `SortEngine.SortByNameOrdersNames` | tidal_tool.py:710-711 | sorting by name puts lower-cased names in string order, reversed for `"desc"` |
| `SortEngine.DescendingKeepsTies` | tidal_tool.py:708-711 | playlists whose names differ only in case keep their order under `"asc"` and `"desc"` alike |
| `SortEngine.OriginalOrderIsFetchOrder` | tidal_tool.py:727-729 | tracks as fetched come back from `"original"` unchanged |
| `SortEngine.AlbumSortGroupsAlbums` | tidal_tool.py:738-739 | ascending by album, tracks of the same album stay in playlist order |
| `Filters.Filter` | tidal_tool.py:1078 | a list comprehension keeps exactly the elements satisfying the condition, each as often as before, as a subsequence |
| `Filters.IsSubsequenceTransitive` | tidal_tool.py:1076-1084 | filtering a filtered list still gives a subsequence of the original |
| `Filters.ParseBound` | tidal_tool.py:1076-1082 | a bound applies exactly when the answer is a non-empty string of digits |
| `Filters.FilterByDuration` | tidal_tool.py:1062-1097 | keeps exactly the tracks with `duration >= min` (when given) and `duration <= max` (when given), in order |
| `Filters.NoBoundsKeepsAll` | tidal_tool.py:1076-1084 | with no numeric bound the tracks come back unchanged |
| `Filters.Matches` | tidal_tool.py:1186-1196 | the search condition, lower-cased term in lower-cased name, artist or album; the body is its meaning, used by `Filters.SearchTracks` |
| `Filters.SearchTracks` | tidal_tool.py:1186-1196 | no term, or the empty term, keeps everything; otherwise exactly the tracks whose lower-cased name, artist or album contains the lower-cased term, in order |
| `Filters.EmptyTermMatchesAll` | tidal_tool.py:1186-1196 | the empty term occurs in every string, so it would keep every track anyway |
| `Filters.SearchAfterDurationFilter` | tidal_tool.py:1186-1196 | the duration filter (lines 1076-1084) followed by the search keeps exactly the tracks in range that match, in order |
| `Filters.ViewTracks` | tidal_tool.py:1180-1216 | "No tracks found" exactly for an empty list; "No tracks match" exactly when the search keeps nothing; otherwise a page within 1..total_pages of 1 to 20 rows whose range covers exactly those rows |
| `Filters.ViewTracksIsPaginatorPage` | tidal_tool.py:1209-1216 | the rows are the Paginator's page of the searched and sorted tracks, at the requested page clamped into 1..total_pages, and the range is its "Showing" range |
| `Filters.FirstPageAsFetched` | tidal_tool.py:1171-1216 | with no search and the `"original"` order, page 1 shows the first 20 tracks as fetched |
| `TrackFetch.Collect` | tidal_tool.py:664-683 | the tracks the paging loop gathers from request k on, or None when a request raises; the body is its meaning, and `TrackFetch.FetchStopsAtFirstShortPage` states it as the pages up to the first short one |
| `TrackFetch.FetchPlaylistTracks` | tidal_tool.py:654-704 | no session or a failed lookup gives `[]`; a page that raises gives `[]`; otherwise the records of all tracks fetched, numbered 1..n in order, and the offsets requested |
| `TrackFetch.FetchPages` | tidal_tool.py:664-683 | the `while True` loop gathers exactly the pages up to the first empty or short one, and requests exactly the offsets 0, 100, ... up to it |
| `TrackFetch.NumberTracks` | tidal_tool.py:687-698 | the record at position i carries index i + 1 and the track's fields |
| `TrackFetch.NextRequest` | tidal_tool.py:677-683 | after a full page the loop asks for the next offset |
| `TrackFetch.LastRequest` | tidal_tool.py:669-680 | an empty, short or failed page is the last one asked for |
| `TrackFetch.FetchStopsAtFirstShortPage` | tidal_tool.py:664-683 | when page m is the first that is not full, the result is pages 0..m in order (or a failure if page m raised), requested at offsets 0, 100, ..., 100·m |
| `TrackFetch.SomePageIsShort` | tidal_tool.py:664-683 | some page is not full, so the loop ends |
| `TrackFetch.MissingNamesAreUnknown` | tidal_tool.py:694-695 | a missing artist or album becomes "Unknown"; a present one is copied |
| `Export.FileName` | tidal_tool.py:1425 | `playlist_<id>.<ext>` has the id's length plus the extension's plus 10 |
| `Export.FileNameInjective` | tidal_tool.py:1425 | different playlists never share a file name for one format (the same pattern is used at lines 1440 and 1471) |
| `Export.FileNamesDiffer` | tidal_tool.py:1425-1471 | the JSON, CSV and TXT files (names built at lines 1425, 1440 and 1471) of a playlist have three different names |
| `Export.JsonEntry` | tidal_tool.py:1414-1423 | one track entry of the JSON document; the body is its meaning, and `Export.JsonEntryNames` and `Export.CsvAgreesWithJson` state its properties |
| `Export.ExportJson` | tidal_tool.py:1401-1425 | the playlist fields are copied, `total_tracks == len(tracks)`, one entry per track in order, named `playlist_<id>.json` |
| `Export.JsonEntryNames` | tidal_tool.py:1414-1423 | a missing artist or album is exported as 'Unknown'; a missing track number as null |
| `Export.CsvRow` | tidal_tool.py:1452-1462 | one CSV row; the body is its meaning, and `Export.CsvRowReadsBack` states its properties |
| `Export.ExportCsv` | tidal_tool.py:1438-1462 | the 8-column header, then one row per track numbered from 1, in order, named `playlist_<id>.csv` |
| `Export.CsvRowReadsBack` | tidal_tool.py:1452-1462 | each row has eight columns; its number cell reads back as its 1-based number, its duration cell as the duration, its track-number cell as the track number |
| `Export.CsvAgreesWithJson` | tidal_tool.py:1452-1462 | the CSV row and the JSON entry (lines 1414-1423) of a track name the same id, artist, song and album |
| `Export.Repeat` | tidal_tool.py:1483 | `c * n` has `n` characters, all `c` |
| `Export.TxtEntriesAt` | tidal_tool.py:1485-1492 | entry i of the body is lines 4i..4i+3 and is numbered i + 1 |
| `Export.TxtHeader` | tidal_tool.py:1477-1483 | the nine header lines of the TXT file; the body is its meaning, and `Export.TxtCountReadsBack` states its property |
| `Export.TxtEntry` | tidal_tool.py:1485-1492 | the four lines of one track; the body is its meaning, and `Export.TxtNumberReadsBack` and `Export.TxtEntriesAt` state its properties |
| `Export.ExportTxt` | tidal_tool.py:1469-1492 | nine header lines, then four lines per track, numbered from 1 in order, named `playlist_<id>.txt` |
| `Export.TxtCountReadsBack` | tidal_tool.py:1481 | the "Total Tracks: " line reads back as the number of tracks |
| `Export.TxtNumberReadsBack` | tidal_tool.py:1490 | each entry opens with its number followed by ". " |
| `Randomize.Pick` | tidal_tool.py:1531 | the swap partner for position i is at most i |
| `Randomize.ShuffleDown` | tidal_tool.py:1531 | CPython's swap loop from position i down; the body is its meaning, and `Randomize.ShuffleDownPermutes` states its property |
| `Randomize.Shuffled` | tidal_tool.py:1531 | `random.shuffle` of the whole list; the body is its meaning, and `Randomize.ShuffledPermutes` and `Randomize.Shuffle` state its properties |
| `Randomize.ShuffleDownPermutes` | tidal_tool.py:1531 | each step of the shuffle loop keeps the length and the multiset of elements |
| `Randomize.ShuffledPermutes` | tidal_tool.py:1531 | the shuffled list is a permutation of the input |
| `Randomize.Shuffle` | tidal_tool.py:1531 | the in-place shuffle of the array leaves exactly `Shuffled(old contents, draws)` |
| `Randomize.Batches` | tidal_tool.py:1541-1543 | the slices `ids[i:i+100]` for `i` in `range(0, n, 100)`; the body is its meaning, and `Randomize.BatchesCoverIds` and `Randomize.BatchAt` state its properties |
| `Randomize.BatchesCoverIds` | tidal_tool.py:1539-1545 | `range(0, n, 100)` slicing gives `ceil(n/100)` batches of 1 to 100 ids that concatenate to the ids in order |
| `Randomize.BatchAt` | tidal_tool.py:1542-1543 | batch k is `ids[100k : 100k + 100]` |
| `Randomize.OneHundredThirtySevenIds` | tidal_tool.py:1541-1545 | 137 ids are sent as a batch of 100 and a batch of 37 |
| `Tool.CacheHit` | tidal_tool.py:577-578 | the hit condition; the body is its meaning, and `Tool.EmptyCacheNeverHits`, `Tool.FreshCacheHits` and `Tool.TidalTool.GetAllPlaylists` state its properties |
| `Tool.EmptyCacheNeverHits` | tidal_tool.py:577 | a cached empty list is never served |
| `Tool.FreshCacheHits` | tidal_tool.py:577-579 | a non-empty list stored at t is served to an unforced read exactly while `now < t + 300` |
| `Tool.FirstFailure` | tidal_tool.py:1541-1545 | the first batch whose add raises: all before it succeed, and it fails unless it is the count |
| `Tool.ShuffledName` | tidal_tool.py:1501 | `f"{name} [Shuffled]"`; the body is its meaning, used by `Tool.TidalTool.RandomizePlaylist` |
| `Tool.TidalTool.constructor` | tidal_tool.py:418-436 | no session, no user id, no cache, playlists by name ascending, tracks in original order ascending |
| `Tool.TidalTool.SignIn` | tidal_tool.py:521-523 | the session and the user id are set, as on both sign-in paths (also lines 469-471); the cache is untouched |
| `Tool.TidalTool.ProcessPlaylists` | tidal_tool.py:599-632 | one record per playlist object, in order, each owned exactly when its creator is the user |
| `Tool.TidalTool.GetAllPlaylists` | tidal_tool.py:570-652 | a hit returns the cache, makes no call and changes nothing; without a session, or when the call raises, `[]` and the cache untouched; a successful call returns one record per playlist and replaces both the list and its time; the service is asked exactly on a miss with a session |
| `Tool.TidalTool.RandomizePlaylist` | tidal_tool.py:1499-1562 | no tracks: no call, cache untouched; a failed create: that one call, cache untouched; otherwise the create call then the add calls of the batches up to and including the first that fails, and the cache is dropped exactly when every batch succeeded |
| `Tool.AddBatches` | tidal_tool.py:1541-1545 | the batch loop sends the batches in order up to and including the first that fails, and reports success exactly when none failed |
| `Tool.FirstFailureAt` | tidal_tool.py:1541-1545 | the loop's first failing batch is the first failure of the whole run |
| `Tool.BatchesBound` | tidal_tool.py:1541 | batch k exists exactly while `100k < len(ids)` |
| `Tool.ShuffleDownMap` | tidal_tool.py:1531-1539 | taking ids commutes with the shuffle |
| `Tool.SentIdsArePermutation` | tidal_tool.py:1531-1545 | the batches together carry the shuffled ids in order, and those are the fetched ids with their multiplicities |

## Left out

- `Tool.TidalTool.RandomizePlaylist`: the shuffle is the CPython loop driven by
  a draw sequence. The model proves a permutation, not that every permutation
  is equally likely. The confirmation prompt before it is not modelled.
- `Tool.AddBatches`: an add answer not supplied counts as a success. The model
  does not capture the service's real limits.
- `Records.ToPlaylist`: the per-playlist `try/except` around the creator lookup
  (tidal_tool.py:600-611) is not modelled. A creator is present or absent.
- `Text.Lower`: ASCII only. So are the whitespace of `str.split` and the digits
  of `str.isdigit`. Unicode case mapping and Unicode digits are not modelled,
  so neither is the `int()` error that a non-ASCII digit would raise in the
  duration filter.
- `SortEngine.TimeKey`: timestamps are integers. A missing one is a key below
  all others, as `datetime.min` is. Comparisons between naive and aware
  datetimes are not modelled.
- `Pagination.Paginator.constructor`: requires a page size of at least 1. The
  source has no guard for this, and a zero size divides by zero.
- `Wrap.WrapText`: the text is a string. The `None` case of `not text` is
  therefore not modelled.
- **I/O and the clock.**
  - OAuth login, the credentials file, the browser launcher, the clipboard
    and the creation of the exports directory in `__init__` are input and
    output, not logic.
  - The interactive menus, prompts and screens, and all printing, are not
    modelled. This includes the 100-character table rendering and the
    `DisplayBox` rendering.
  - The date helpers (`format_date`, `calculate_age` and the like) read the
    clock.
- **The writes.** `json.dump`, `csv.writer` quoting, the file writes and their
  `IOError` handling are library and filesystem work. The model builds the
  records, rows and lines only. The menu that picks the export format is not
  modelled either.
- **Timing.** The fetch and processing timers of `get_all_playlists` only
  print.
- **Broken code.** The model gives none of these a meaning:
  - `playlist['uuid']` in the playlist menu never exists;
  - the call to `randomize_playlist` passes an argument the method does not
    take;
  - the `is_favorite` label is never set.
- `TrackFetch.SomePageIsShort`: the loop is proved to end only under the
  model's answer of an empty page past the given pages. The source has no such
  bound, and a service that never returned a short page would keep it looping.
- **Other parts of the repository.** The backend routes are placeholders, and
  the desktop front end is user interface. Neither belongs to the data engine.

## Findings

| source | as written | input that shows it | evidently intended | confidence | as-written member | corrected member |
|---|---|---|---|---|---|---|
| tidal_tool.py:368, tidal_tool.py:377-381 | `current_length` starts at `len(indent)` and then gains `len(word) + 1` for the first word. So on the first line it counts one separator too many, and the first line breaks one character before `width`. Later lines start at `len(indent) + len(word)` and are counted exactly | `wrap_text("a bb", 4, "")` gives two lines, `"a"` and `"bb"`, although `"a bb"` is 4 characters and fits | each line breaks only when the next word would exceed `width`: start the count at `len(indent) - 1` | not executed | `Wrap.FirstLineBreaksEarly` (on `Wrap.WrapText`) | `Wrap.FittedBreaksOnlyWhenNeeded` (on `Wrap.FittedGroups`) |
