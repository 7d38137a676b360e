/** The channel catalog: parsing the flat-playlist listing and the cache-or-fetch decision. */
module Catalog {
  import opened Wrappers
  import opened Text
  import opened Seqs
  import opened Records
  import opened ChannelUrl

  /** One element of the listing's `entries` array. `Null` stands for a JSON `null` entry;
      an empty object is an `Object` whose keys are all absent. */
  datatype Entry =
    | Null
    | Object(id: Option<string>, url: Option<string>, title: Option<string>,
             uploadDate: Option<string>, viewCount: Option<nat>, duration: Option<nat>)

  /** The parsed `--flat-playlist --dump-single-json` object; `entries` is `None` when the key is absent. */
  datatype Listing = Listing(
    entries: Option<seq<Entry>>,
    playlistChannel: Option<string>, playlistUploader: Option<string>,
    uploader: Option<string>, channel: Option<string>)

  /** How one run of the listing fetch ended. */
  datatype FetchOutcome =
    | TimedOut
    | ProcessFailed(stderr: string)
    | EmptyOutput
    | InvalidJson
    | Output(listing: Listing)

  /** A cache file's content once parsed as JSON. */
  datatype CachedJson = JsonList(items: seq<Video>) | OtherJson

  /** The cache file for one channel. `Corrupt` is text that is not JSON; `Undecodable` is a
      file whose bytes are not UTF-8, which fails before any JSON is read. */
  datatype CacheContent = Missing | Corrupt | Undecodable | Parsed(value: CachedJson)

  /** Why no catalog was returned; each case is one error dialog of the source. */
  datatype FetchError =
    | YtDlpMissing
    | InvalidCacheData
    | UndecodableCache
    | BadUrl(reason: UrlError)
    | RequestTimedOut
    | YtDlpFailed(stderr: string)
    | InvalidJsonFromYtDlp
    | NoData
    | InvalidResponse
    | NoVideosFound

  /** What resolving a channel produced: the catalog or the error, the cache file afterwards,
      and the URL the listing fetch was run on, if it was run. */
  datatype Resolution = Resolution(
    result: Result<seq<Video>, FetchError>, cache: CacheContent, fetchedUrl: Option<string>)

  /** Python truthiness of an optional string: present and non-empty. */
  predicate Truthy(o: Option<string>)
  {
    o.Some? && o.value != ""
  }

  /** `cands[k]` is the first truthy candidate. */
  predicate FirstTruthy(cands: seq<Option<string>>, k: int)
  {
    0 <= k < |cands| && Truthy(cands[k]) && forall j :: 0 <= j < k ==> !Truthy(cands[j])
  }

  /** The `a or b or ... or fallback` chain. */
  function FirstNonEmpty(cands: seq<Option<string>>, fallback: string): (r: string)
    ensures (forall k :: 0 <= k < |cands| ==> !Truthy(cands[k])) ==> r == fallback
    ensures forall k :: FirstTruthy(cands, k) ==> r == cands[k].value
    ensures fallback != "" ==> r != ""
  {
    if cands == [] then fallback
    else if Truthy(cands[0]) then cands[0].value
    else FirstNonEmpty(cands[1..], fallback)
  }

  /** The channel name given to every record of a listing. */
  function ChannelName(l: Listing): (name: string)
    ensures name != ""
  {
    FirstNonEmpty([l.playlistChannel, l.playlistUploader, l.uploader, l.channel], "Unknown")
  }

  function WatchUrl(id: string): string
  {
    "https://www.youtube.com/watch?v=" + id
  }

  /** An entry becomes a record when it has an id that is not a channel id (`UC...`). */
  predicate Playable(e: Entry)
  {
    e.Object? && e.id.Some? && !StartsWith(e.id.value, "UC")
  }

  /** The record built from a playable entry. */
  function ToVideo(e: Entry, channel: string): (v: Video)
    requires Playable(e)
    ensures v.url == if e.url.Some? then e.url.value else WatchUrl(e.id.value)
    ensures v.title == if e.title.Some? then e.title.value else "Unknown"
    ensures v.channel == channel
    ensures v.uploadDate == if e.uploadDate.Some? then e.uploadDate.value else ""
    ensures v.viewCount == if e.viewCount.Some? then e.viewCount.value else 0
    ensures v.duration == if e.duration.Some? then e.duration.value else 0
  {
    Video(e.url.GetOr(WatchUrl(e.id.value)), e.title.GetOr("Unknown"), channel,
          e.uploadDate.GetOr(""), e.viewCount.GetOr(0), e.duration.GetOr(0))
  }

  /** The records the parsing loop collects from a prefix of the entries. */
  function Collected(es: seq<Entry>, channel: string): seq<Video>
  {
    if es == [] then []
    else
      var last := es[|es| - 1];
      Collected(es[..|es| - 1], channel) + (if Playable(last) then [ToVideo(last, channel)] else [])
  }

  /** The records are exactly the playable entries, in their order, each turned into a record. */
  lemma {:induction false} CollectedIsFilteredEntries(es: seq<Entry>, channel: string)
    ensures |Collected(es, channel)| == |Filter(Playable, es)|
    ensures forall k :: 0 <= k < |Collected(es, channel)| ==>
              Collected(es, channel)[k] == ToVideo(Filter(Playable, es)[k], channel)
  {
    if es != [] {
      var init, last := es[..|es| - 1], es[|es| - 1];
      assert es == init + [last];
      CollectedIsFilteredEntries(init, channel);
      FilterAppend(Playable, init, [last]);
      assert Filter(Playable, [last]) == if Playable(last) then [last] else [] by {
        assert [last][1..] == [];
      }
    }
  }

  /** The `for entry in entries` loop that appends one record per playable entry. */
  method ParseEntries(entries: seq<Entry>, channel: string) returns (videos: seq<Video>)
    ensures videos == Collected(entries, channel)
  {
    videos := [];
    var i := 0;
    while i < |entries|
      invariant 0 <= i <= |entries|
      invariant videos == Collected(entries[..i], channel)
    {
      var entry := entries[i];
      assert entries[..i + 1][..i] == entries[..i];
      if entry.Object? && entry.id.Some? {
        if !StartsWith(entry.id.value, "UC") {
          videos := videos + [ToVideo(entry, channel)];
        }
      }
      i := i + 1;
    }
    assert entries[..|entries|] == entries;
  }

  /** The validation of a parsed listing: the `entries` key must be there and yield a record. */
  function ParseListing(l: Listing): (r: Result<seq<Video>, FetchError>)
    ensures l.entries.None? ==> r == Failure(InvalidResponse)
    ensures l.entries.Some? ==>
              r == if Filter(Playable, l.entries.value) == [] then Failure(NoVideosFound)
                   else Success(Collected(l.entries.value, ChannelName(l)))
  {
    if l.entries.None? then Failure(InvalidResponse)
    else
      var videos := Collected(l.entries.value, ChannelName(l));
      CollectedIsFilteredEntries(l.entries.value, ChannelName(l));
      if videos == [] then Failure(NoVideosFound) else Success(videos)
  }

  /** The normalise-fetch-parse-write path; `cache` is the cache file as it stands before it. */
  function LiveFetch(url: string, cache: CacheContent, fetch: FetchOutcome, writeOk: bool): (r: Resolution)
    ensures r.fetchedUrl.Some? <==> Normalize(url).Success?
    ensures r.fetchedUrl.Some? ==> r.fetchedUrl == Some(Normalize(url).value)
    ensures r.result.Success? ==> r.result.value != [] && r.fetchedUrl.Some?
    ensures r.cache == if r.result.Success? && writeOk then Parsed(JsonList(r.result.value)) else cache
    ensures !Normalize(url).Success? ==> r.result == Failure(BadUrl(Normalize(url).error))
    ensures Normalize(url).Success? ==>
              r.result == match fetch
                          case TimedOut => Failure(RequestTimedOut)
                          case ProcessFailed(err) => Failure(YtDlpFailed(err))
                          case EmptyOutput => Failure(NoData)
                          case InvalidJson => Failure(InvalidJsonFromYtDlp)
                          case Output(l) => ParseListing(l)
  {
    match Normalize(url)
    case Failure(e) => Resolution(Failure(BadUrl(e)), cache, None)
    case Success(u) =>
      var result :=
        match fetch
        case TimedOut => Failure(RequestTimedOut)
        case ProcessFailed(err) => Failure(YtDlpFailed(err))
        case EmptyOutput => Failure(NoData)
        case InvalidJson => Failure(InvalidJsonFromYtDlp)
        case Output(l) => ParseListing(l);
      Resolution(result, if result.Success? && writeOk then Parsed(JsonList(result.value)) else cache, Some(u))
  }

  /** Resolving a channel to its catalog, from cache or by a live fetch. `fetch` is how the
      listing fetch would end, `writeOk` whether writing the cache file succeeds. */
  function Resolve(url: string, force: bool, installed: bool, cache: CacheContent,
                   fetch: FetchOutcome, writeOk: bool): (r: Resolution)
    // Nothing works without the fetch tool, not even a cache hit.
    ensures !installed ==> r == Resolution(Failure(YtDlpMissing), cache, None)
    // A non-empty cached list is returned as it is, without a fetch.
    ensures installed && !force && cache.Parsed? && cache.value.JsonList? && cache.value.items != [] ==>
              r == Resolution(Success(cache.value.items), cache, None)
    // A parsable cache that is not a non-empty list is an error; no fetch follows.
    ensures installed && !force && cache.Parsed? && !(cache.value.JsonList? && cache.value.items != []) ==>
              r == Resolution(Failure(InvalidCacheData), cache, None)
    // An unparsable cache is deleted and a live fetch follows.
    ensures installed && !force && cache == Corrupt ==> r == LiveFetch(url, Missing, fetch, writeOk)
    // A cache file that is not UTF-8 is an error; it is neither deleted nor refetched.
    ensures installed && !force && cache == Undecodable ==>
              r == Resolution(Failure(UndecodableCache), cache, None)
    // A missing cache, or a forced refresh, goes straight to the live fetch.
    ensures installed && (force || cache == Missing) ==> r == LiveFetch(url, cache, fetch, writeOk)
    // A catalog that is returned is never empty.
    ensures r.result.Success? ==> r.result.value != []
  {
    if !installed then Resolution(Failure(YtDlpMissing), cache, None)
    else if cache != Missing && !force then
      match cache
      case Parsed(JsonList(items)) =>
        if items == [] then Resolution(Failure(InvalidCacheData), cache, None)
        else Resolution(Success(items), cache, None)
      case Parsed(OtherJson) => Resolution(Failure(InvalidCacheData), cache, None)
      case Corrupt => LiveFetch(url, Missing, fetch, writeOk)
      case Undecodable => Resolution(Failure(UndecodableCache), cache, None)
    else LiveFetch(url, cache, fetch, writeOk)
  }

  /** A catalog fetched and written to the cache is served from the cache, unchanged and
      without another fetch, the next time the channel is resolved without a forced refresh. */
  lemma CacheRoundTrip(url: string, force: bool, cache: CacheContent, fetch: FetchOutcome,
                       fetch2: FetchOutcome, writeOk2: bool)
    requires Resolve(url, force, true, cache, fetch, true).fetchedUrl.Some?
    requires Resolve(url, force, true, cache, fetch, true).result.Success?
    ensures var first := Resolve(url, force, true, cache, fetch, true);
            Resolve(url, false, true, first.cache, fetch2, writeOk2)
              == Resolution(first.result, first.cache, None)
  {
  }

  /** The body of `fetch_channel_videos`, with the listing built by the parsing loop. */
  method FetchChannelVideos(url: string, force: bool, installed: bool, cache: CacheContent,
                            fetch: FetchOutcome, writeOk: bool) returns (r: Resolution)
    ensures r == Resolve(url, force, installed, cache, fetch, writeOk)
  {
    if !installed {
      return Resolution(Failure(YtDlpMissing), cache, None);
    }
    var file := cache;
    if file != Missing && !force {
      match file
      case Parsed(data) =>
        if data.OtherJson? || data.items == [] {
          return Resolution(Failure(InvalidCacheData), file, None);
        }
        return Resolution(Success(data.items), file, None);
      case Corrupt =>
        file := Missing;
      case Undecodable =>
        return Resolution(Failure(UndecodableCache), file, None);
    }
    var normalized := Normalize(url);
    if normalized.Failure? {
      return Resolution(Failure(BadUrl(normalized.error)), file, None);
    }
    var u := normalized.value;
    match fetch
    case TimedOut => return Resolution(Failure(RequestTimedOut), file, Some(u));
    case ProcessFailed(err) => return Resolution(Failure(YtDlpFailed(err)), file, Some(u));
    case EmptyOutput => return Resolution(Failure(NoData), file, Some(u));
    case InvalidJson => return Resolution(Failure(InvalidJsonFromYtDlp), file, Some(u));
    case Output(l) =>
      if l.entries.None? {
        return Resolution(Failure(InvalidResponse), file, Some(u));
      }
      var videos := ParseEntries(l.entries.value, ChannelName(l));
      if videos == [] {
        return Resolution(Failure(NoVideosFound), file, Some(u));
      }
      if writeOk {
        file := Parsed(JsonList(videos));
      }
      return Resolution(Success(videos), file, Some(u));
  }
}
