/** Telling a fetchable media URL from an in-page `blob:` reference, and picking one off a video. */
module VideoUrl {
  import opened Wrappers
  import opened Text
  import opened Page

  /** The media signatures `isDirectVideoUrl` looks for. */
  predicate HasMediaSignature(url: string) {
    Contains(url, ".mp4") || Contains(url, "video.twimg.com") || Contains(url, ".m3u8")
  }

  /** `isDirectVideoUrl`; the empty string is falsy and is rejected first. */
  predicate IsDirectVideoUrl(url: string) {
    url != [] && HasMediaSignature(url) && StartsWith(url, "http") && !StartsWith(url, "blob:")
  }

  /**
   * The emptiness and `blob:` tests never decide anything: a URL is direct
   * exactly when it starts with `http` and carries a media signature.
   */
  lemma DirectUrlIffHttpMedia(url: string)
    ensures IsDirectVideoUrl(url) <==> HasMediaSignature(url) && StartsWith(url, "http")
    ensures IsDirectVideoUrl(url) ==> !StartsWith(url, "blob:") && |url| >= 4
  {
    if StartsWith(url, "http") {
      assert url[0] == url[..4][0] == 'h';
      assert |url| >= 5 ==> url[..5][0] == 'h';
    }
  }

  /** `source.src && isDirectVideoUrl(source.src)` over the child `<source>` elements. */
  function FirstDirectSource(sources: seq<string>): (r: Option<string>)
    ensures r.None? <==> forall i | 0 <= i < |sources| :: !IsDirectVideoUrl(sources[i])
    ensures r.Some? ==> exists i | 0 <= i < |sources| ::
      sources[i] == r.value && IsDirectVideoUrl(r.value) && forall j | 0 <= j < i :: !IsDirectVideoUrl(sources[j])
  {
    if sources == [] then None
    else if IsDirectVideoUrl(sources[0]) then Some(sources[0])
    else
      var r := FirstDirectSource(sources[1..]);
      assert r.Some? ==> exists i | 0 <= i < |sources| ::
        sources[i] == r.value && IsDirectVideoUrl(r.value) && forall j | 0 <= j < i :: !IsDirectVideoUrl(sources[j])
      by {
        if r.Some? {
          var i :| 0 <= i < |sources| - 1 && sources[1..][i] == r.value && IsDirectVideoUrl(r.value) &&
            forall j | 0 <= j < i :: !IsDirectVideoUrl(sources[1..][j]);
          assert sources[i + 1] == r.value;
          forall j | 0 <= j < i + 1 ensures !IsDirectVideoUrl(sources[j]) {
            if j > 0 { assert sources[j] == sources[1..][j - 1]; }
          }
        }
      }
      r
  }

  /** The URL `extractDirectVideoUrl` settles on: `src`, else a different `currentSrc`, else a child source. */
  function DirectUrl(v: Video): Option<string> {
    if v.src != [] && IsDirectVideoUrl(v.src) then Some(v.src)
    else if v.currentSrc != [] && v.currentSrc != v.src && IsDirectVideoUrl(v.currentSrc) then Some(v.currentSrc)
    else FirstDirectSource(v.sources)
  }

  /**
   * Whatever `DirectUrl` returns is a direct URL taken from the video, in the
   * priority `src`, `currentSrc`, child sources; it returns nothing exactly
   * when none of them is direct.
   */
  lemma DirectUrlChoice(v: Video)
    ensures DirectUrl(v).Some? ==> IsDirectVideoUrl(DirectUrl(v).value)
    ensures DirectUrl(v).Some? ==> DirectUrl(v).value == v.src || DirectUrl(v).value == v.currentSrc || DirectUrl(v).value in v.sources
    ensures DirectUrl(v).None? <==>
      !IsDirectVideoUrl(v.src) && !IsDirectVideoUrl(v.currentSrc) && forall i | 0 <= i < |v.sources| :: !IsDirectVideoUrl(v.sources[i])
    ensures IsDirectVideoUrl(v.src) ==> DirectUrl(v) == Some(v.src)
    ensures !IsDirectVideoUrl(v.src) && IsDirectVideoUrl(v.currentSrc) ==> DirectUrl(v) == Some(v.currentSrc)
    ensures !IsDirectVideoUrl(v.src) && !IsDirectVideoUrl(v.currentSrc) ==> DirectUrl(v) == FirstDirectSource(v.sources)
  {
  }

  /** `extractDirectVideoUrl`, with its loop over `video.querySelectorAll('source')`. */
  method ExtractDirectVideoUrl(v: Video) returns (r: Option<string>)
    ensures r == DirectUrl(v)
  {
    if v.src != [] && IsDirectVideoUrl(v.src) {
      return Some(v.src);
    }
    if v.currentSrc != [] && v.currentSrc != v.src && IsDirectVideoUrl(v.currentSrc) {
      return Some(v.currentSrc);
    }
    var sources := v.sources;
    for i := 0 to |sources|
      invariant forall j | 0 <= j < i :: !IsDirectVideoUrl(sources[j])
    {
      var source := sources[i];
      if source != [] && IsDirectVideoUrl(source) {
        return Some(source);
      }
    }
    return None;
  }
}
