/**
 * A snapshot of the page the content script reads.  The script reaches the
 * document only through `querySelector`/`querySelectorAll`,
 * `getBoundingClientRect`, `window.location.href` and the viewport size; a
 * `Page` value holds exactly the answers those calls give during one scan.
 * Geometry is in whole pixels.
 */
module Page {
  import opened Wrappers
  import opened Text

  /** The rectangle `getBoundingClientRect` reports; `bottom` and `right` are derived. */
  datatype Rect = Rect(top: int, left: int, width: nat, height: nat) {
    function Bottom(): int { top + height }
    function Right(): int { left + width }
  }

  /**
   * The value of `video.duration`: NaN before metadata is known, +Infinity
   * for an unbounded stream, otherwise a non-negative number of seconds.
   */
  datatype Duration = NaN | Infinity | Seconds(value: Secs)
  type Secs = r: real | 0.0 <= r

  /** A `<video>` element as the script inspects it. */
  datatype Video = Video(
    videoWidth: nat,
    videoHeight: nat,
    src: string,
    currentSrc: string,
    sources: seq<string>,   // the `src` of each child `<source>`, in document order
    rect: Rect,
    duration: Duration)

  /** An `<article>` or `[data-testid="tweet"]` element: its rectangle and `querySelector('video')`. */
  datatype Container = Container(rect: Rect, firstVideo: Option<Video>)

  /** The four strategies, in the order the script tries them. */
  datatype Strategy = TimelineArticle | TweetTestId | PrimaryColumn | LargestVideo

  const Order: seq<Strategy> := [TimelineArticle, TweetTestId, PrimaryColumn, LargestVideo]

  datatype Page = Page(
    url: string,                          // window.location.href
    articles: seq<Container>,             // querySelectorAll('article')
    tweets: seq<Container>,               // querySelectorAll('[data-testid="tweet"]')
    primaryColumn: Option<seq<Video>>,    // querySelector('[data-testid="primaryColumn"]') and its videos
    videos: seq<Video>,                   // querySelectorAll('video')
    innerWidth: nat,
    innerHeight: nat,
    clientWidth: nat,                     // document.documentElement.clientWidth
    clientHeight: nat,
    raising: set<Strategy>)               // strategies whose DOM reads throw on this page

  datatype Confidence = High | Medium | Low

  /** What a strategy returns when it finds a video: `{videoElement, source, confidence}`. */
  datatype Candidate = Candidate(video: Video, source: string, confidence: Confidence)

  /** `isTweetPage`: the URL names a single post. */
  predicate IsTweetPage(url: string) {
    Contains(url, "/status/") || Contains(url, "/i/status/")
  }

  /** The second test of `isTweetPage` never decides anything: `/i/status/` contains `/status/`. */
  lemma TweetPageIsStatusSegment(url: string)
    ensures IsTweetPage(url) <==> Contains(url, "/status/")
  {
    if Contains(url, "/i/status/") {
      ContainsInner(url, "/i/status/", "/status/", 2);
    }
  }

  /** `isVideoValid`: the media has reported both dimensions. */
  predicate IsVideoValid(v: Video) {
    v.videoWidth > 0 && v.videoHeight > 0
  }

  /** `window.innerHeight || document.documentElement.clientHeight` */
  function ViewportHeight(p: Page): nat {
    if p.innerHeight != 0 then p.innerHeight else p.clientHeight
  }

  /** `window.innerWidth || document.documentElement.clientWidth` */
  function ViewportWidth(p: Page): nat {
    if p.innerWidth != 0 then p.innerWidth else p.clientWidth
  }

  /** `isElementInViewport`: all four edges lie inside the viewport. */
  predicate IsElementInViewport(p: Page, r: Rect) {
    r.top >= 0 && r.left >= 0 && r.Bottom() <= ViewportHeight(p) && r.Right() <= ViewportWidth(p)
  }

  /** The point `(x, y)` lies on the closed rectangle `r`. */
  predicate OnRect(r: Rect, x: int, y: int) {
    r.left <= x <= r.Right() && r.top <= y <= r.Bottom()
  }

  /** The point `(x, y)` lies on the closed viewport. */
  predicate OnScreen(p: Page, x: int, y: int) {
    0 <= x <= ViewportWidth(p) && 0 <= y <= ViewportHeight(p)
  }

  /** Checking the four edges is the same as every point of the element being on screen. */
  lemma InViewportIffEveryPoint(p: Page, r: Rect)
    ensures IsElementInViewport(p, r) <==> forall x, y :: OnRect(r, x, y) ==> OnScreen(p, x, y)
  {
    if forall x, y :: OnRect(r, x, y) ==> OnScreen(p, x, y) {
      assert OnRect(r, r.left, r.top) && OnRect(r, r.Right(), r.Bottom());
    }
  }
}
