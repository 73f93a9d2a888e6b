/** `detectMainPostVideo`: the answer the content script sends back for a `detectVideo` request. */
module Detection {
  import opened Wrappers
  import opened Text
  import opened Page
  import opened Strategies
  import opened VideoUrl
  import opened DurationLabel

  const NotTweetPageError: string := "Please navigate to a specific tweet page (URL should contain /status/)."
  const NoVideoError: string := "No video found on this tweet page."

  /** The `videoInfo` object of a successful answer; `kind` is its `type` field. */
  datatype VideoInfo = VideoInfo(
    duration: string,
    quality: string,
    kind: string,
    source: string,
    isDirect: bool,
    requiresManual: bool,
    confidence: Confidence,
    isBlobUrl: bool)

  /** `{success: true, videoUrl, videoInfo}` or `{success: false, error}`. */
  datatype Response = Success(videoUrl: string, videoInfo: VideoInfo) | Failure(error: string)

  /** `${videoWidth}x${videoHeight}` */
  function Quality(v: Video): string {
    NatToString(v.videoWidth) + "x" + NatToString(v.videoHeight)
  }

  /** `video.src || video.currentSrc`: handed over, whatever it is, when no direct URL exists. */
  function BlobUrl(v: Video): string {
    if v.src != [] then v.src else v.currentSrc
  }

  /** The answer for a chosen candidate, with or without a direct URL. */
  function Answer(c: Candidate, direct: Option<string>): Response {
    var v := c.video;
    match direct
    case Some(url) =>
      Success(url, VideoInfo(FormatDuration(v.duration), Quality(v), "MP4", c.source, true, false, c.confidence, false))
    case None =>
      Success(BlobUrl(v), VideoInfo(FormatDuration(v.duration), Quality(v), "Video", c.source + "_blob", false, true, c.confidence, true))
  }

  /** What `detectMainPostVideo` answers on a page. */
  function Detect(p: Page): Response {
    if !IsTweetPage(p.url) then Failure(NotTweetPageError)
    else match MainVideo(p)
      case None => Failure(NoVideoError)
      case Some(c) => Answer(c, DirectUrl(c.video))
  }

  /** `detectMainPostVideo` */
  method DetectMainPostVideo(p: Page) returns (r: Response)
    ensures r == Detect(p)
  {
    if !IsTweetPage(p.url) {
      return Failure(NotTweetPageError);
    }
    var mainVideo := FindMainVideoWithMultipleStrategies(p);
    if mainVideo.Some? {
      var videoUrl := ExtractDirectVideoUrl(mainVideo.value.video);
      return Answer(mainVideo.value, videoUrl);
    }
    return Failure(NoVideoError);
  }

  // ---------------------------------------------------------------- properties

  /**
   * Off a post page the answer is the navigation error, and nothing else on
   * the page is looked at: two pages with the same URL get the same answer.
   */
  lemma NotTweetPageFails(p: Page, q: Page)
    requires !IsTweetPage(p.url) && q.url == p.url
    ensures Detect(p) == Failure(NotTweetPageError)
    ensures Detect(q) == Detect(p)
  {
  }

  /** The answer is a success exactly when the page is a post page and some strategy finds a video. */
  lemma DetectSucceeds(p: Page)
    ensures Detect(p).Success? <==> IsTweetPage(p.url) && MainVideo(p).Some?
    ensures Detect(p).Failure? ==>
      Detect(p).error == (if IsTweetPage(p.url) then NoVideoError else NotTweetPageError)
    ensures Detect(p).Failure? && IsTweetPage(p.url) ==> forall s :: !Try(s, p).Found?
  {
    MainVideoChoice(p);
  }

  /**
   * An answer for a chosen candidate is direct exactly when a direct URL is
   * given, and then carries that URL with type `MP4` and the plain source name.
   * Otherwise every flag is inverted, the URL is `src || currentSrc`, the type
   * is `Video` and the source name gains the suffix `_blob`.  Duration,
   * quality and confidence come from the candidate either way.
   */
  lemma AnswerFlags(c: Candidate, direct: Option<string>)
    ensures Answer(c, direct).Success?
    ensures Answer(c, direct).videoInfo.isDirect <==> direct.Some?
    ensures Answer(c, direct).videoInfo.requiresManual == !Answer(c, direct).videoInfo.isDirect
    ensures Answer(c, direct).videoInfo.isBlobUrl == !Answer(c, direct).videoInfo.isDirect
    ensures direct.Some? ==> Answer(c, direct).videoUrl == direct.value
    ensures direct.Some? ==> Answer(c, direct).videoInfo.kind == "MP4" && Answer(c, direct).videoInfo.source == c.source
    ensures direct.None? ==> Answer(c, direct).videoUrl == BlobUrl(c.video)
    ensures direct.None? ==> Answer(c, direct).videoInfo.kind == "Video" && Answer(c, direct).videoInfo.source == c.source + "_blob"
    ensures Answer(c, direct).videoInfo.confidence == c.confidence
    ensures Answer(c, direct).videoInfo.duration == FormatDuration(c.video.duration)
    ensures Answer(c, direct).videoInfo.quality == Quality(c.video)
  {
  }

  /**
   * On a post page the answer is built from the chain's candidate, which is
   * valid, and the URL it extracts; a direct answer carries a fetchable URL.
   */
  lemma DetectAnswer(p: Page, c: Candidate)
    requires IsTweetPage(p.url) && MainVideo(p) == Some(c)
    ensures Detect(p) == Answer(c, DirectUrl(c.video))
    ensures IsVideoValid(c.video)
    ensures Detect(p).videoInfo.isDirect ==> IsDirectVideoUrl(Detect(p).videoUrl)
  {
    MainVideoChoice(p);
    DirectUrlChoice(c.video);
  }

  /**
   * The blob answer is a success even when the video has neither `src` nor
   * `currentSrc`: its `videoUrl` is then empty.
   */
  lemma EmptyBlobUrlIsSuccess()
    ensures
      var v := Video(1, 1, "", "", [], Rect(0, 0, 0, 0), NaN);
      var p := Page("/status/", [Container(Rect(0, 0, 501, 0), Some(v))], [], None, [], 0, 0, 0, 0, {});
      Detect(p) == Success("", VideoInfo("Unknown", "1x1", "Video", "timeline_article_blob", false, true, High, true))
  {
    var v := Video(1, 1, "", "", [], Rect(0, 0, 0, 0), NaN);
    var p := Page("/status/", [Container(Rect(0, 0, 501, 0), Some(v))], [], None, [], 0, 0, 0, 0, {});
    var c := Candidate(v, "timeline_article", High);
    assert IsTweetPage(p.url) by {
      assert OccursAt(p.url, "/status/", 0);
    }
    assert MainVideo(p) == Some(c) by {
      TimelineArticleFirst(p, 0);
      MainVideoFirst(p, 0);
    }
    assert DirectUrl(v) == None;
    assert Answer(c, None) == Success("", VideoInfo("Unknown", "1x1", "Video", "timeline_article_blob", false, true, High, true));
  }

  /**
   * On a post page, a valid video in the first article that sits above 500 px
   * and is wider than 500 px is the answer, with high confidence, whatever
   * other videos the page holds.
   */
  lemma TimelineArticleWins(p: Page, i: nat)
    requires IsTweetPage(p.url) && TimelineArticle !in p.raising
    requires i < |p.articles| && ArticleAccepts(p.articles[i])
    requires forall j | 0 <= j < i :: !ArticleAccepts(p.articles[j])
    ensures MainVideo(p) == Some(Candidate(p.articles[i].firstVideo.value, "timeline_article", High))
    ensures Detect(p).Success? && Detect(p).videoInfo.confidence == High
  {
  }
}
