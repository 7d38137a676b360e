/** Channel URL normalisation: the checks and the `/videos` suffix applied before a listing fetch. */
module ChannelUrl {
  import opened Wrappers
  import opened Text

  /** The three `ValueError`s normalisation raises. */
  datatype UrlError = EmptyUrl | MissingScheme | NotYouTube

  /** The input with surrounding whitespace and then trailing slashes removed. */
  function Cleaned(url: string): string
  {
    StripSlashes(Strip(url))
  }

  predicate HasScheme(u: string)
  {
    StartsWith(u, "http://") || StartsWith(u, "https://")
  }

  predicate IsYouTube(u: string)
  {
    Contains(u, "youtube.com") || Contains(u, "youtu.be")
  }

  /** A channel-style address: a handle, custom, user or channel-id page. */
  predicate IsChannelPage(u: string)
  {
    Contains(u, "/@") || Contains(u, "/c/") || Contains(u, "/user/") || Contains(u, "/channel/")
  }

  function Normalize(url: string): (r: Result<string, UrlError>)
    ensures r == Failure(EmptyUrl) <==> url == ""
    ensures r == Failure(MissingScheme) <==> url != "" && !HasScheme(Cleaned(url))
    ensures r == Failure(NotYouTube) <==> url != "" && HasScheme(Cleaned(url)) && !IsYouTube(Cleaned(url))
    ensures r.Success? ==> r.value == Cleaned(url) || r.value == Cleaned(url) + "/videos"
    ensures r.Success? ==> (r.value == Cleaned(url) + "/videos" <==>
                              IsChannelPage(Cleaned(url)) && !EndsWith(Cleaned(url), "/videos"))
    ensures r.Success? ==> HasScheme(r.value) && IsYouTube(r.value)
    ensures r.Success? ==> r.value[|r.value| - 1] != '/'
    ensures r.Success? ==> (IsChannelPage(r.value) <==> IsChannelPage(Cleaned(url)))
    ensures r.Success? && IsChannelPage(r.value) ==> EndsWith(r.value, "/videos")
  {
    if url == "" then Failure(EmptyUrl)
    else
      var u := Cleaned(url);
      if !HasScheme(u) then Failure(MissingScheme)
      else if !IsYouTube(u) then Failure(NotYouTube)
      else if IsChannelPage(u) && !EndsWith(u, "/videos") then
        ExtendKeeps(u, "/videos");
        Success(u + "/videos")
      else Success(u)
  }

  /** Everything normalisation checks about a URL survives appending a suffix. */
  lemma ExtendKeeps(u: string, w: string)
    requires HasScheme(u) && IsYouTube(u) && IsChannelPage(u)
    ensures HasScheme(u + w) && IsYouTube(u + w) && IsChannelPage(u + w)
  {
    assert (u + w)[..7] == u[..7] && (u + w)[..8] == u[..8] by {
      assert |u| >= 7;
      if |u| >= 8 { assert (u + w)[..8] == u[..8]; }
    }
    if Contains(u, "youtube.com") { ContainsExtend(u, "youtube.com", w); }
    else { ContainsExtend(u, "youtu.be", w); }
    if Contains(u, "/@") { ContainsExtend(u, "/@", w); }
    else if Contains(u, "/c/") { ContainsExtend(u, "/c/", w); }
    else if Contains(u, "/user/") { ContainsExtend(u, "/user/", w); }
    else { ContainsExtend(u, "/channel/", w); }
  }

  /** A normalised URL that does not end in whitespace is a fixed point of normalisation. */
  lemma NormalizeIdempotent(url: string)
    requires Normalize(url).Success?
    requires !IsSpace(Normalize(url).value[|Normalize(url).value| - 1])
    ensures Normalize(Normalize(url).value) == Normalize(url)
  {
    var v := Normalize(url).value;
    SchemeFirst(v);
    StripUnchanged(v);
    FixedPoint(v);
  }

  /** An address with a scheme starts with `h`. */
  lemma SchemeFirst(u: string)
    requires HasScheme(u)
    ensures u[0] == 'h'
  {
    assert u[0] == u[..7][0];
  }

  /** A URL that cleaning leaves alone and that passes every check normalises to itself. */
  lemma FixedPoint(u: string)
    requires u != [] && Strip(u) == u && u[|u| - 1] != '/'
    requires HasScheme(u) && IsYouTube(u) && (IsChannelPage(u) ==> EndsWith(u, "/videos"))
    ensures Normalize(u) == Success(u)
  {
    assert Cleaned(u) == u;
  }

  /** Normalising a channel page twice gives the same `/videos` address as normalising it once. */
  lemma ChannelNormalizeIdempotent(url: string)
    requires Normalize(url).Success? && IsChannelPage(Normalize(url).value)
    ensures EndsWith(Normalize(url).value, "/videos")
    ensures Normalize(Normalize(url).value) == Normalize(url)
  {
    var v := Normalize(url).value;
    assert v[|v| - 1] == "/videos"[6];
    NormalizeIdempotent(url);
  }
}
