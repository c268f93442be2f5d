/**
 * The records export_json, export_csv and export_txt build from a playlist
 * dictionary and its track objects, and the file name each writes to. The
 * writing itself (json.dump, csv.writer, file I/O) is not modelled; the
 * export timestamp is a parameter.
 */
module Export {
  import opened Wrappers
  import opened Text
  import opened Records
  import opened Helpers

  /** `f"playlist_{id}.{ext}"` */
  function FileName(id: string, ext: string): (f: string)
    ensures |f| == |id| + |ext| + 10
  {
    "playlist_" + id + "." + ext
  }

  lemma FileNameInjective(a: string, b: string, ext: string)
    requires FileName(a, ext) == FileName(b, ext)
    ensures a == b
  {
    assert a == FileName(a, ext)[9..9 + |a|];
    assert b == FileName(b, ext)[9..9 + |b|];
  }

  /** The three formats of one playlist never share a file. */
  lemma FileNamesDiffer(id: string)
    ensures FileName(id, "json") != FileName(id, "csv")
    ensures FileName(id, "json") != FileName(id, "txt")
    ensures FileName(id, "csv") != FileName(id, "txt")
  {
    var c, t := FileName(id, "csv"), FileName(id, "txt");
    assert c[|c| - 3] == 'c' && t[|t| - 3] == 't';
  }

  // JSON

  /** One entry of `export_data['tracks']`; a missing track_num or isrc is null. */
  datatype JsonTrack = JsonTrack(
    id: string, name: string, artist: string, album: string, duration: int,
    trackNumber: Option<nat>, isrc: Option<string>)

  datatype JsonDoc = JsonDoc(
    playlistName: string, playlistId: string, playlistType: string, isOwned: bool,
    creator: string, totalTracks: nat, exportedAt: string, tracks: seq<JsonTrack>)

  function JsonEntry(t: RawTrack): JsonTrack {
    JsonTrack(t.id, t.name, ArtistName(t), AlbumName(t), t.duration, t.trackNum, t.isrc)
  }

  /** export_json: the document, one entry per track in the given order, and `playlist_<id>.json`. */
  method ExportJson(p: Playlist, tracks: seq<RawTrack>, exportedAt: string) returns (doc: JsonDoc, filename: string)
    ensures doc.playlistName == p.name && doc.playlistId == p.id && doc.playlistType == p.kind
    ensures doc.isOwned == p.isOwned && doc.creator == p.creator && doc.exportedAt == exportedAt
    ensures doc.totalTracks == |tracks| == |doc.tracks|
    ensures forall i :: 0 <= i < |tracks| ==> doc.tracks[i] == JsonEntry(tracks[i])
    ensures filename == FileName(p.id, "json")
  {
    var entries: seq<JsonTrack> := [];
    for i := 0 to |tracks|
      invariant |entries| == i
      invariant forall j :: 0 <= j < i ==> entries[j] == JsonEntry(tracks[j])
    {
      entries := entries + [JsonEntry(tracks[i])];
    }
    doc := JsonDoc(p.name, p.id, p.kind, p.isOwned, p.creator, |tracks|, exportedAt, entries);
    filename := FileName(p.id, "json");
  }

  /** A track without an artist or album object is exported under 'Unknown'. */
  lemma JsonEntryNames(t: RawTrack)
    ensures JsonEntry(t).artist == (if t.artist.Some? then t.artist.value else "Unknown")
    ensures JsonEntry(t).album == (if t.album.Some? then t.album.value else "Unknown")
    ensures JsonEntry(t).trackNumber.None? <==> t.trackNum.None?
  {
  }

  // CSV

  const CsvHeader: seq<string> := ["#", "Track ID", "Artist", "Song", "Album", "Duration", "Track Number", "ISRC"]

  /** A missing track_num or isrc is written as an empty cell. */
  function Cell(o: Option<string>): string { if o.Some? then o.value else "" }

  function NumberCell(o: Option<nat>): string { if o.Some? then NatToString(o.value) else "" }

  function CsvRow(number: nat, t: RawTrack): seq<string> {
    [NatToString(number), t.id, ArtistName(t), t.name, AlbumName(t),
     FormatDuration(Some(t.duration)), NumberCell(t.trackNum), Cell(t.isrc)]
  }

  /** export_csv: the header, then one row per track numbered from 1, and `playlist_<id>.csv`. */
  method ExportCsv(p: Playlist, tracks: seq<RawTrack>) returns (rows: seq<seq<string>>, filename: string)
    ensures |rows| == |tracks| + 1 && rows[0] == CsvHeader
    ensures forall i :: 0 <= i < |tracks| ==> rows[i + 1] == CsvRow(i + 1, tracks[i])
    ensures filename == FileName(p.id, "csv")
  {
    filename := FileName(p.id, "csv");
    rows := [CsvHeader];
    for i := 0 to |tracks|
      invariant |rows| == i + 1 && rows[0] == CsvHeader
      invariant forall j :: 0 <= j < i ==> rows[j + 1] == CsvRow(j + 1, tracks[j])
    {
      rows := rows + [CsvRow(i + 1, tracks[i])];
    }
  }

  /**
   * Each row has the header's eight columns; its first cell reads back as its
   * 1-based number and its duration cell as the track's duration.
   */
  lemma CsvRowReadsBack(number: nat, t: RawTrack)
    requires t.duration >= 0
    ensures |CsvRow(number, t)| == |CsvHeader|
    ensures AllDigits(CsvRow(number, t)[0]) && ParseDecimal(CsvRow(number, t)[0]) == number
    ensures ParseDuration(CsvRow(number, t)[5]) == Some(t.duration)
    ensures t.trackNum.Some? ==> ParseDecimal(CsvRow(number, t)[6]) == t.trackNum.value
  {
    ParseNatToString(number);
    FormatDurationRoundTrip(t.duration);
    if t.trackNum.Some? {
      ParseNatToString(t.trackNum.value);
    }
  }

  /** The CSV row and the JSON entry of a track name the same id, artist, song and album. */
  lemma CsvAgreesWithJson(number: nat, t: RawTrack)
    ensures var row, e := CsvRow(number, t), JsonEntry(t);
      row[1] == e.id && row[2] == e.artist && row[3] == e.name && row[4] == e.album
  {
  }

  // TXT

  /** Python's `c * n` on a one-character string. */
  function Repeat(c: char, n: nat): (s: string)
    ensures |s| == n && forall i :: 0 <= i < n ==> s[i] == c
  {
    if n == 0 then [] else [c] + Repeat(c, n - 1)
  }

  /** `'=' * 80` */
  const Rule: string := Repeat('=', 80)

  /** The header lines: six fields, a blank line, the rule, a blank line. */
  function TxtHeader(p: Playlist, count: nat, exportedAt: string): seq<string> {
    ["Playlist: " + p.name, "ID: " + p.id, "Type: " + p.kind, "Creator: " + p.creator,
     "Total Tracks: " + NatToString(count), "Exported: " + exportedAt, "", Rule, ""]
  }

  /** The four lines of the track numbered `number`, the last one blank. */
  function TxtEntry(number: nat, t: RawTrack): seq<string> {
    [NatToString(number) + ". " + t.name,
     "   Artist: " + ArtistName(t) + " | Album: " + AlbumName(t) + " | Duration: " + FormatDuration(Some(t.duration)),
     "   Track ID: " + t.id,
     ""]
  }

  /** The entries of `ts`, numbered from 1. */
  function TxtEntries(ts: seq<RawTrack>): (ls: seq<string>)
    ensures |ls| == 4 * |ts|
  {
    if |ts| == 0 then [] else TxtEntries(ts[..|ts| - 1]) + TxtEntry(|ts|, ts[|ts| - 1])
  }

  lemma SliceOfLeft<T>(a: seq<T>, b: seq<T>, lo: nat, hi: nat)
    requires lo <= hi <= |a|
    ensures (a + b)[lo..hi] == a[lo..hi]
  {
  }

  lemma SliceOfRight<T>(a: seq<T>, b: seq<T>, lo: nat, hi: nat)
    requires lo <= hi <= |b|
    ensures (a + b)[|a| + lo .. |a| + hi] == b[lo..hi]
  {
  }

  lemma TxtEntriesSnoc(ts: seq<RawTrack>, i: nat)
    requires i < |ts|
    ensures TxtEntries(ts[..i + 1]) == TxtEntries(ts[..i]) + TxtEntry(i + 1, ts[i])
  {
    assert ts[..i + 1][..i] == ts[..i];
  }

  /** Entry i of the body is lines 4i..4i+3 and carries the number i + 1. */
  lemma {:induction false} TxtEntriesAt(ts: seq<RawTrack>, i: nat)
    requires i < |ts|
    ensures TxtEntries(ts)[4 * i .. 4 * i + 4] == TxtEntry(i + 1, ts[i])
  {
    var init := ts[..|ts| - 1];
    var prefix := TxtEntries(init);
    var last := TxtEntry(|ts|, ts[|ts| - 1]);
    assert TxtEntries(ts) == prefix + last;
    var b := 4 * i;
    if i < |ts| - 1 {
      TxtEntriesAt(init, i);
      SliceOfLeft(prefix, last, b, b + 4);
    } else {
      assert |prefix| == b;
      SliceOfRight(prefix, last, 0, 4);
      assert last[0..4] == last;
    }
  }

  /** export_txt: the lines of the file, each ended by a newline there, and `playlist_<id>.txt`. */
  method ExportTxt(p: Playlist, tracks: seq<RawTrack>, exportedAt: string) returns (lines: seq<string>, filename: string)
    ensures |lines| == 9 + 4 * |tracks|
    ensures lines[..9] == TxtHeader(p, |tracks|, exportedAt)
    ensures lines[9..] == TxtEntries(tracks)
    ensures filename == FileName(p.id, "txt")
  {
    filename := FileName(p.id, "txt");
    var body: seq<string> := [];
    for i := 0 to |tracks|
      invariant body == TxtEntries(tracks[..i])
    {
      TxtEntriesSnoc(tracks, i);
      body := body + TxtEntry(i + 1, tracks[i]);
    }
    assert tracks[..|tracks|] == tracks;
    var header := TxtHeader(p, |tracks|, exportedAt);
    lines := header + body;
    SliceOfLeft(header, body, 0, 9);
    SliceOfRight(header, body, 0, |body|);
    assert header[0..9] == header && body[0..|body|] == body;
  }

  /** The count line reads back as the number of tracks. */
  lemma TxtCountReadsBack(p: Playlist, count: nat, exportedAt: string)
    ensures var h := TxtHeader(p, count, exportedAt)[4];
      h[..14] == "Total Tracks: " && ParseDecimal(h[14..]) == count
  {
    ParseNatToString(count);
    var h := TxtHeader(p, count, exportedAt)[4];
    assert h == "Total Tracks: " + NatToString(count);
    assert h[14..] == NatToString(count);
  }

  /** Each entry opens with its number followed by ". ". */
  lemma TxtNumberReadsBack(number: nat, t: RawTrack)
    ensures var first := TxtEntry(number, t)[0];
      var n := |NatToString(number)|;
      n + 2 <= |first| && first[n..n + 2] == ". " && ParseDecimal(first[..n]) == number
  {
    ParseNatToString(number);
    var first := TxtEntry(number, t)[0];
    assert first == NatToString(number) + ". " + t.name;
    assert first[..|NatToString(number)|] == NatToString(number);
  }
}
