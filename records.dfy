/** Video records, the per-video metadata defaults and merge, and the duration label. */
module Records {
  import opened Wrappers
  import opened Text

  /** One catalog entry as held in memory and in the cache file. */
  datatype Video = Video(
    url: string, title: string, channel: string,
    uploadDate: string, viewCount: nat, duration: nat)

  /** The fields of a single-video metadata dump; `None` where the key is absent. */
  datatype VideoInfo = VideoInfo(
    uploadDate: Option<string>, viewCount: Option<nat>, duration: Option<nat>,
    channel: Option<string>, uploader: Option<string>, title: Option<string>)

  /** The five fields a metadata refresh supplies. */
  datatype Metadata = Metadata(
    uploadDate: string, viewCount: nat, duration: nat, channel: string, title: string)

  /** The metadata record built from a dump, with a default for every absent key.
      The channel falls back to the uploader only when the `channel` key is absent. */
  function MetadataOf(info: VideoInfo): (m: Metadata)
    ensures info.uploadDate.Some? ==> m.uploadDate == info.uploadDate.value
    ensures info.uploadDate.None? ==> m.uploadDate == ""
    ensures info.viewCount.Some? ==> m.viewCount == info.viewCount.value
    ensures info.viewCount.None? ==> m.viewCount == 0
    ensures info.duration.Some? ==> m.duration == info.duration.value
    ensures info.duration.None? ==> m.duration == 0
    ensures info.channel.Some? ==> m.channel == info.channel.value
    ensures info.channel.None? && info.uploader.Some? ==> m.channel == info.uploader.value
    ensures info.channel.None? && info.uploader.None? ==> m.channel == "Unknown"
    ensures info.title.Some? ==> m.title == info.title.value
    ensures info.title.None? ==> m.title == "Unknown"
  {
    Metadata(
      info.uploadDate.GetOr(""), info.viewCount.GetOr(0), info.duration.GetOr(0),
      info.channel.GetOr(info.uploader.GetOr("Unknown")), info.title.GetOr("Unknown"))
  }

  /** The metadata part of a record. */
  function MetadataPart(v: Video): Metadata
  {
    Metadata(v.uploadDate, v.viewCount, v.duration, v.channel, v.title)
  }

  /** `video.update(metadata)`: every supplied field replaced, the URL kept. */
  function Merge(v: Video, m: Metadata): (r: Video)
    ensures r.url == v.url
    ensures MetadataPart(r) == m
  {
    v.(uploadDate := m.uploadDate, viewCount := m.viewCount, duration := m.duration,
       channel := m.channel, title := m.title)
  }

  /** Merging a record's own metadata changes nothing, and a second identical merge is a no-op. */
  lemma MergeLaws(v: Video, m: Metadata)
    ensures Merge(v, MetadataPart(v)) == v
    ensures Merge(Merge(v, m), m) == Merge(v, m)
    ensures Merge(v, m) == v <==> MetadataPart(v) == m
  {
  }

  /** The duration label: `H:MM:SS` from one hour up, `M:SS` below; none for a zero duration. */
  function FormatDuration(d: nat): (r: Option<string>)
    ensures r.Some? <==> d > 0
  {
    if d == 0 then None else Some(Label(d / 3600, (d % 3600) / 60, d % 60))
  }

  function Label(hours: nat, minutes: nat, seconds: nat): string
  {
    if hours > 0 then DecimalString(hours) + ":" + TwoDigits(minutes) + ":" + TwoDigits(seconds)
    else DecimalString(minutes) + ":" + TwoDigits(seconds)
  }

  /** The value of a non-empty run of decimal digits. */
  function ReadDigits(s: string): Option<nat>
  {
    if s != [] && forall i :: 0 <= i < |s| ==> IsDigit(s[i]) then Some(DigitsValue(s)) else None
  }

  /** Reads an `M:SS` label as it is printed: the minutes below 60 without a leading zero,
      a colon and the seconds below 60 in exactly two digits. */
  function ReadShort(s: string): Option<nat>
  {
    if |s| < 4 || s[|s| - 3] != ':' then None
    else
      var minutes := ReadDigits(s[..|s| - 3]);
      var seconds := ReadDigits(s[|s| - 2..]);
      if minutes.Some? && seconds.Some? && minutes.value < 60 && seconds.value < 60 &&
         s[..|s| - 3] == DecimalString(minutes.value)
      then Some(minutes.value * 60 + seconds.value)
      else None
  }

  /** Reads an `H:MM:SS` label as it is printed: at least one hour without a leading zero, then
      the minutes and the seconds below 60, each in exactly two digits. */
  function ReadLong(s: string): Option<nat>
  {
    if |s| < 4 || s[|s| - 3] != ':' then None
    else
      var rest := s[..|s| - 3];
      if |rest| < 4 || rest[|rest| - 3] != ':' then None
      else
        var hours := ReadDigits(rest[..|rest| - 3]);
        var minutes := ReadDigits(rest[|rest| - 2..]);
        var seconds := ReadDigits(s[|s| - 2..]);
        if hours.Some? && minutes.Some? && seconds.Some? && hours.value >= 1 &&
           minutes.value < 60 && seconds.value < 60 && rest[..|rest| - 3] == DecimalString(hours.value)
        then Some(hours.value * 3600 + minutes.value * 60 + seconds.value)
        else None
  }

  /** Reads a label of either form back into seconds. */
  function ParseDuration(s: string): Option<nat>
  {
    if ReadLong(s).Some? then ReadLong(s) else ReadShort(s)
  }

  /** Every label that is shown reads back as the duration it was made from, and it has an
      hours field exactly from one hour up: `H:MM:SS` then, `M:SS` below. */
  lemma DurationRoundTrip(d: nat)
    requires d > 0
    ensures ParseDuration(FormatDuration(d).value) == Some(d)
    ensures d >= 3600 ==> ReadLong(FormatDuration(d).value) == Some(d) && ReadShort(FormatDuration(d).value).None?
    ensures d < 3600 ==> ReadShort(FormatDuration(d).value) == Some(d) && ReadLong(FormatDuration(d).value).None?
  {
    var hours, minutes, seconds := d / 3600, (d % 3600) / 60, d % 60;
    SplitSeconds(d);
    assert FormatDuration(d).value == Label(hours, minutes, seconds);
    LabelReadsBack(hours, minutes, seconds);
  }

  /** Conversely, every string that reads as a positive duration is that duration's label, so the
      readers accept exactly the labels the formatter prints. */
  lemma LabelIsCanonical(s: string, d: nat)
    requires ParseDuration(s) == Some(d) && d > 0
    ensures FormatDuration(d) == Some(s)
  {
    if ReadLong(s).Some? {
      LongIsCanonical(s);
    } else {
      ShortIsCanonical(s);
    }
  }

  lemma LongIsCanonical(s: string)
    requires ReadLong(s).Some?
    ensures FormatDuration(ReadLong(s).value) == Some(s)
  {
    var rest := s[..|s| - 3];
    var mm, ss := rest[|rest| - 2..], s[|s| - 2..];
    var hours, minutes, seconds := ReadDigits(rest[..|rest| - 3]).value, ReadDigits(mm).value, ReadDigits(ss).value;
    TwoDigitsCanonical(mm, minutes);
    TwoDigitsCanonical(ss, seconds);
    Reassemble(rest);
    Reassemble(s);
    assert s == Label(hours, minutes, seconds);
    assert ReadLong(s).value == hours * 3600 + minutes * 60 + seconds;
    FormatParts(hours, minutes, seconds);
  }

  lemma ShortIsCanonical(s: string)
    requires ReadShort(s).Some? && ReadShort(s).value > 0
    ensures FormatDuration(ReadShort(s).value) == Some(s)
  {
    var ss := s[|s| - 2..];
    var minutes, seconds := ReadDigits(s[..|s| - 3]).value, ReadDigits(ss).value;
    TwoDigitsCanonical(ss, seconds);
    Reassemble(s);
    assert s == Label(0, minutes, seconds);
    assert ReadShort(s).value == 0 * 3600 + minutes * 60 + seconds;
    FormatParts(0, minutes, seconds);
  }

  /** A string with a colon three from the end is its head, that colon and its last two characters. */
  lemma Reassemble(s: string)
    requires |s| >= 3 && s[|s| - 3] == ':'
    ensures s == s[..|s| - 3] + ":" + s[|s| - 2..]
  {
  }

  /** Two digits are the zero-padded print of their value. */
  lemma TwoDigitsCanonical(ff: string, n: nat)
    requires |ff| == 2 && ReadDigits(ff) == Some(n)
    ensures ff == TwoDigits(n)
  {
    var a, b := DigitValue(ff[0]), DigitValue(ff[1]);
    assert ff[..1] == [ff[0]] && [ff[0]][..0] == [];
    assert DigitsValue(ff[..1]) == a;
    assert n == a * 10 + b;
    assert ff[1] == DigitChar(b) && ff[0] == DigitChar(a);
    if a != 0 {
      assert n / 10 == a && n % 10 == b;
      assert DecimalString(n) == DecimalString(a) + [DigitChar(b)];
    }
  }

  /** A duration given by its parts is labelled with those parts. */
  lemma FormatParts(hours: nat, minutes: nat, seconds: nat)
    requires minutes < 60 && seconds < 60 && hours * 3600 + minutes * 60 + seconds > 0
    ensures FormatDuration(hours * 3600 + minutes * 60 + seconds) == Some(Label(hours, minutes, seconds))
  {
    SplitUnique(hours, minutes, seconds);
  }

  /** The split into hours, minutes and seconds is the only one with both remainders below 60. */
  lemma SplitUnique(hours: nat, minutes: nat, seconds: nat)
    requires minutes < 60 && seconds < 60
    ensures var d := hours * 3600 + minutes * 60 + seconds;
            d / 3600 == hours && (d % 3600) / 60 == minutes && d % 60 == seconds
  {
    var d := hours * 3600 + minutes * 60 + seconds;
    var r := minutes * 60 + seconds;
    assert r < 3600;
    assert d / 3600 == hours && d % 3600 == r;
    assert r / 60 == minutes && r % 60 == seconds;
    RemainderBy60(hours * 60 + minutes, seconds);
    assert d == 60 * (hours * 60 + minutes) + seconds;
  }

  lemma LabelReadsBack(hours: nat, minutes: nat, seconds: nat)
    requires minutes < 60 && seconds < 60
    ensures var s, d := Label(hours, minutes, seconds), hours * 3600 + minutes * 60 + seconds;
            ParseDuration(s) == Some(d) &&
            (hours > 0 ==> ReadLong(s) == Some(d) && ReadShort(s).None?) &&
            (hours == 0 ==> ReadShort(s) == Some(d) && ReadLong(s).None?)
  {
    if hours > 0 {
      LongLabel(hours, minutes, seconds);
    } else {
      ShortLabel(minutes, seconds);
    }
  }

  lemma LongLabel(hours: nat, minutes: nat, seconds: nat)
    requires hours >= 1 && minutes < 60 && seconds < 60
    ensures var s := DecimalString(hours) + ":" + TwoDigits(minutes) + ":" + TwoDigits(seconds);
            ReadLong(s) == Some(hours * 3600 + minutes * 60 + seconds) && ReadShort(s).None?
  {
    TwoDigitsLength(seconds);
    ReadTwoDigits(seconds);
    TwoDigitsLength(minutes);
    ReadTwoDigits(minutes);
    ReadDecimal(hours);
    LongReadsBack(DecimalString(hours), TwoDigits(minutes), TwoDigits(seconds), hours, minutes, seconds);
  }

  lemma ShortLabel(minutes: nat, seconds: nat)
    requires minutes < 60 && seconds < 60
    ensures var s := DecimalString(minutes) + ":" + TwoDigits(seconds);
            ReadShort(s) == Some(minutes * 60 + seconds) && ReadLong(s).None?
  {
    TwoDigitsLength(seconds);
    ReadTwoDigits(seconds);
    ReadDecimal(minutes);
    assert |DecimalString(minutes)| <= 2 by {
      if minutes >= 10 { assert |DecimalString(minutes / 10)| == 1; }
    }
    ShortReadsBack(DecimalString(minutes), TwoDigits(seconds), minutes, seconds);
  }

  /** Hours, minutes and seconds as the label computes them add back up to the duration. */
  lemma SplitSeconds(d: nat)
    ensures (d % 3600) / 60 < 60 && d % 60 < 60
    ensures d == (d / 3600) * 3600 + ((d % 3600) / 60) * 60 + d % 60
    ensures d / 3600 > 0 <==> d >= 3600
  {
  }

  /** Stated on its own so that `SplitUnique` does not leave the remainder of a sum to the
      solver's nonlinear arithmetic, whose cost varies widely from one run to the next. */
  lemma RemainderBy60(k: int, s: int)
    requires 0 <= s < 60
    ensures (60 * k + s) % 60 == s
  {
  }

  lemma ReadDecimal(n: nat)
    ensures ReadDigits(DecimalString(n)) == Some(n)
  {
    DecimalRoundTrip(n);
  }

  lemma ReadTwoDigits(n: nat)
    ensures ReadDigits(TwoDigits(n)) == Some(n)
  {
    TwoDigitsRoundTrip(n);
  }

  lemma LongReadsBack(h: string, mm: string, ss: string, hours: nat, minutes: nat, seconds: nat)
    requires ReadDigits(h) == Some(hours) && ReadDigits(mm) == Some(minutes) && ReadDigits(ss) == Some(seconds)
    requires |mm| == 2 && |ss| == 2
    requires h == DecimalString(hours) && hours >= 1 && minutes < 60 && seconds < 60
    ensures ReadLong(h + ":" + mm + ":" + ss) == Some(hours * 3600 + minutes * 60 + seconds)
    ensures ReadShort(h + ":" + mm + ":" + ss).None?
  {
    var rest := h + ":" + mm;
    var s := rest + ":" + ss;
    assert s == h + ":" + mm + ":" + ss;
    assert s[|s| - 2..] == ss;
    assert s[|s| - 3] == ':';
    assert s[..|s| - 3] == rest;
    assert rest[|rest| - 3] == ':';
    assert rest[..|rest| - 3] == h;
    assert rest[|rest| - 2..] == mm;
    assert !IsDigit(rest[|h|]);
  }

  lemma ShortReadsBack(m: string, ss: string, minutes: nat, seconds: nat)
    requires ReadDigits(m) == Some(minutes) && ReadDigits(ss) == Some(seconds)
    requires |m| <= 2 && |ss| == 2
    requires m == DecimalString(minutes) && minutes < 60 && seconds < 60
    ensures ReadShort(m + ":" + ss) == Some(minutes * 60 + seconds)
    ensures ReadLong(m + ":" + ss).None?
  {
    var s := m + ":" + ss;
    assert s[|s| - 2..] == ss;
    assert s[|s| - 3] == ':';
    assert s[..|s| - 3] == m;
  }
}
