/**
 * The module-level helpers of tidal_tool.py: duration rendering, file-name
 * sanitising and truncation with an ellipsis.
 */
module Helpers {
  import opened Wrappers
  import opened Text

  // format_duration

  /**
   * The hours, minutes and seconds of a duration, computed with Python's
   * floor `//` and `%` (Dafny's `/` and `%` agree with them for a positive divisor).
   */
  function DurationParts(seconds: int): (p: (int, nat, nat))
    ensures p.0 * 3600 + p.1 * 60 + p.2 == seconds
    ensures p.1 < 60 && p.2 < 60
    ensures seconds >= 0 ==> p.0 >= 0 && (p.0 > 0 <==> seconds >= 3600)
  {
    (seconds / 3600, (seconds % 3600) / 60, seconds % 60)
  }

  /** `f"{n:02d}"` for a number below 100. */
  function Pad2(n: nat): (s: string)
    requires n < 100
    ensures |s| == 2 && AllDigits(s)
  {
    if n < 10 then "0" + NatToString(n)
    else assert NatToString(n) == NatToString(n / 10) + [DigitChar(n % 10)]; NatToString(n)
  }

  /** format_duration: "0:00" for a missing or zero duration, else H:MM:SS from an hour on and M:SS below. */
  function FormatDuration(seconds: Option<int>): (r: string)
    ensures seconds.None? || seconds.value == 0 ==> r == "0:00"
    ensures |r| >= 4 && r[|r| - 3] == ':' && AllDigits(r[|r| - 2..])
  {
    if seconds.None? || seconds.value == 0 then "0:00"
    else
      var (hours, minutes, secs) := DurationParts(seconds.value);
      var head := if hours > 0 then NatToString(hours) + ":" + Pad2(minutes) else NatToString(minutes);
      assert (head + ":" + Pad2(secs))[|head| + 1..] == Pad2(secs);
      head + ":" + Pad2(secs)
  }

  /** Splits a trailing ":SS" off a clock string: the text before it and the two-digit number. */
  function SplitClockTail(t: string): Option<(string, nat)> {
    if |t| >= 3 && t[|t| - 3] == ':' && AllDigits(t[|t| - 2..]) then
      Some((t[..|t| - 3], ParseDecimal(t[|t| - 2..])))
    else None
  }

  /**
   * Reads a clock string "M:SS" or "H:MM:SS" back into seconds; the independent
   * partner of FormatDuration.
   */
  function ParseDuration(t: string): Option<int> {
    var sp := SplitClockTail(t);
    if sp.None? then None else ClockValue(sp.value.0, sp.value.1)
  }

  /** The value of a clock whose trailing seconds `secs` are already split off `head`. */
  function ClockValue(head: string, secs: nat): Option<int> {
    if |head| >= 1 && AllDigits(head) then Some(ParseDecimal(head) * 60 + secs)
    else
      var sp := SplitClockTail(head);
      if sp.Some? && |sp.value.0| >= 1 && AllDigits(sp.value.0) then
        Some(ParseDecimal(sp.value.0) * 3600 + sp.value.1 * 60 + secs)
      else None
  }

  lemma SplitClockTailAppend(a: string, ss: string)
    requires |ss| == 2 && AllDigits(ss)
    ensures SplitClockTail(a + ":" + ss) == Some((a, ParseDecimal(ss)))
  {
    var t := a + ":" + ss;
    assert t[|t| - 3] == ':';
    assert t[|t| - 2..] == ss && t[..|t| - 3] == a;
  }

  lemma ParsePad2(n: nat)
    requires n < 100
    ensures ParseDecimal(Pad2(n)) == n
  {
    ParseNatToString(n);
    if n < 10 {
      var s := Pad2(n);
      assert s[..1] == "0";
      assert ParseDecimal(s[..1]) == 0;
    }
  }

  /** Splitting "H:MM:SS" at its two colons. */
  lemma SplitHoursClock(hs: string, ms: string, ss: string)
    requires |hs| >= 1 && AllDigits(hs) && |ms| == 2 && AllDigits(ms) && |ss| == 2 && AllDigits(ss)
    ensures SplitClockTail(hs + ":" + ms + ":" + ss) == Some((hs + ":" + ms, ParseDecimal(ss)))
    ensures SplitClockTail(hs + ":" + ms) == Some((hs, ParseDecimal(ms)))
    ensures !AllDigits(hs + ":" + ms)
  {
    var head := hs + ":" + ms;
    SplitClockTailAppend(head, ss);
    SplitClockTailAppend(hs, ms);
    assert head[|hs|] == ':';
  }

  /** ParseDuration on a clock with one colon, once its ":SS" has been split off. */
  lemma ClockValueOneColon(t: string, ms: string, secs: nat, value: int)
    requires SplitClockTail(t) == Some((ms, secs)) && |ms| >= 1 && AllDigits(ms)
    requires value == ParseDecimal(ms) * 60 + secs
    ensures ParseDuration(t) == Some(value)
  {
  }

  /** ParseDuration on a clock with two colons, once both ":NN" have been split off. */
  lemma ClockValueTwoColons(t: string, head: string, hs: string, mins: nat, secs: nat, value: int)
    requires SplitClockTail(t) == Some((head, secs)) && SplitClockTail(head) == Some((hs, mins))
    requires |hs| >= 1 && AllDigits(hs) && !AllDigits(head)
    requires value == ParseDecimal(hs) * 3600 + mins * 60 + secs
    ensures ParseDuration(t) == Some(value)
  {
  }

  /** Rendering a non-negative duration and reading it back gives the duration. */
  lemma FormatDurationRoundTrip(seconds: nat)
    ensures ParseDuration(FormatDuration(Some(seconds))) == Some(seconds)
  {
    if seconds >= 3600 {
      var p := DurationParts(seconds);
      var hs := NatToString(p.0);
      HoursForm(seconds);
      ParseNatToString(p.0);
      ClockValueTwoColons(FormatDuration(Some(seconds)), hs + ":" + Pad2(p.1), hs, p.1, p.2, seconds);
    } else {
      var p := DurationParts(seconds);
      var ms := if seconds == 0 then "0" else NatToString(p.1);
      MinutesForm(seconds);
      ParseNatToString(p.1);
      ClockValueOneColon(FormatDuration(Some(seconds)), ms, p.2, seconds);
    }
  }

  /** From an hour on, FormatDuration splits at its colons into the hours, the minutes and the seconds. */
  lemma HoursForm(seconds: nat)
    requires seconds >= 3600
    ensures var p := DurationParts(seconds);
      var head := NatToString(p.0) + ":" + Pad2(p.1);
      SplitClockTail(FormatDuration(Some(seconds))) == Some((head, p.2)) &&
      SplitClockTail(head) == Some((NatToString(p.0), p.1)) && !AllDigits(head)
  {
    var p := DurationParts(seconds);
    var hs, ms, ss := NatToString(p.0), Pad2(p.1), Pad2(p.2);
    assert FormatDuration(Some(seconds)) == hs + ":" + ms + ":" + ss;
    ParsePad2(p.1);
    ParsePad2(p.2);
    SplitHoursClock(hs, ms, ss);
  }

  /** Below an hour, FormatDuration splits at its colon into the minutes and the seconds ("0:00" for zero). */
  lemma MinutesForm(seconds: nat)
    requires seconds < 3600
    ensures var p := DurationParts(seconds);
      SplitClockTail(FormatDuration(Some(seconds))) == Some((if seconds == 0 then "0" else NatToString(p.1), p.2))
  {
    var p := DurationParts(seconds);
    if seconds == 0 {
      assert "0:00" == "0" + ":" + "00";
      assert "00"[..1] == "0";
      assert ParseDecimal("00") == 0;
      SplitClockTailAppend("0", "00");
    } else {
      var ms, ss := NatToString(p.1), Pad2(p.2);
      assert FormatDuration(Some(seconds)) == ms + ":" + ss;
      ParsePad2(p.2);
      SplitClockTailAppend(ms, ss);
    }
  }

  /** The H:MM:SS form (two colons) is used exactly from one hour on; M:SS (one colon) below. */
  lemma FormatDurationShape(seconds: nat)
    ensures CountChar(FormatDuration(Some(seconds)), ':') == if seconds >= 3600 then 2 else 1
  {
    var (h, m, s) := DurationParts(seconds);
    var t := FormatDuration(Some(seconds));
    CountCharDigits(Pad2(s), ':');
    CountCharDigits(Pad2(m), ':');
    if seconds == 0 {
      assert t == "0" + ":" + "00";
      CountCharAppend("0" + ":", "00", ':');
      CountCharAppend("0", ":", ':');
      CountCharDigits("0", ':');
      CountCharDigits("00", ':');
    } else if h > 0 {
      var hs := NatToString(h);
      CountCharDigits(hs, ':');
      CountCharAppend(hs + ":" + Pad2(m) + ":", Pad2(s), ':');
      CountCharAppend(hs + ":" + Pad2(m), ":", ':');
      CountCharAppend(hs + ":", Pad2(m), ':');
      CountCharAppend(hs, ":", ':');
    } else {
      var ms := NatToString(m);
      CountCharDigits(ms, ':');
      CountCharAppend(ms + ":", Pad2(s), ':');
      CountCharAppend(ms, ":", ':');
    }
  }

  // sanitize_filename

  /** The characters sanitize_filename replaces. */
  const InvalidFilenameChars: string := "<>:\"/\\|?*"

  /** `s.replace(c, d)` for single characters. */
  function ReplaceChar(s: string, c: char, d: char): string {
    seq(|s|, i requires 0 <= i < |s| => if s[i] == c then d else s[i])
  }

  /** Every invalid character of `s` becomes '_'. */
  function Sanitized(s: string): string {
    seq(|s|, i requires 0 <= i < |s| => if s[i] in InvalidFilenameChars then '_' else s[i])
  }

  /** sanitize_filename: one `replace` per invalid character, in turn. */
  method SanitizeFilename(filename: string) returns (r: string)
    ensures r == Sanitized(filename)
    ensures |r| == |filename|
    ensures forall i :: 0 <= i < |r| ==> r[i] !in InvalidFilenameChars
    ensures forall i :: 0 <= i < |r| ==> r[i] == if filename[i] in InvalidFilenameChars then '_' else filename[i]
  {
    r := filename;
    for k := 0 to |InvalidFilenameChars|
      invariant |r| == |filename|
      invariant forall i :: 0 <= i < |r| ==> r[i] == if filename[i] in InvalidFilenameChars[..k] then '_' else filename[i]
    {
      r := ReplaceChar(r, InvalidFilenameChars[k], '_');
      assert InvalidFilenameChars[..k + 1] == InvalidFilenameChars[..k] + [InvalidFilenameChars[k]];
    }
    assert InvalidFilenameChars[..|InvalidFilenameChars|] == InvalidFilenameChars;
  }

  /** Sanitising twice is sanitising once. */
  lemma SanitizedIdempotent(s: string)
    ensures Sanitized(Sanitized(s)) == Sanitized(s)
  {
  }

  // truncate_string

  /** Python's `s[:k]`, where a negative `k` counts from the end. */
  function PyPrefix(s: string, k: int): (r: string)
    ensures |r| == if k >= 0 then (if k <= |s| then k else |s|) else (if |s| + k >= 0 then |s| + k else 0)
    ensures r <= s
  {
    if k >= 0 then (if k <= |s| then s[..k] else s)
    else if |s| + k >= 0 then s[..|s| + k] else []
  }

  /** truncate_string: "" for None, the text when it fits, else its first `maxLength - 3` characters and "...". */
  function TruncateString(text: Option<string>, maxLength: int): (r: string)
    ensures text.None? ==> r == ""
    ensures text.Some? && |text.value| <= maxLength ==> r == text.value
    ensures text.Some? && |text.value| > maxLength ==>
      |r| >= 3 && r[|r| - 3..] == "..." && r[..|r| - 3] <= text.value
    ensures text.Some? && 3 <= maxLength < |text.value| ==> |r| == maxLength && r == text.value[..maxLength - 3] + "..."
    ensures text.Some? && maxLength < 3 && maxLength < |text.value| ==> |r| > maxLength
  {
    if text.None? then ""
    else if |text.value| <= maxLength then text.value
    else PyPrefix(text.value, maxLength - 3) + "..."
  }
}
