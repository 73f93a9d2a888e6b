/**
 * The four ways the script looks for the main post's video, and the chain
 * that tries them in order.  Each strategy is given twice: a function that
 * states which video it picks, and a method with the script's own loop that
 * is proved to pick that video.
 */
module Strategies {
  import opened Wrappers
  import opened Page
  import opened Search

  /** `video && isVideoValid(video)` for the container's `querySelector('video')`. */
  predicate HasValidVideo(c: Container) {
    c.firstVideo.Some? && IsVideoValid(c.firstVideo.value)
  }

  /** Strategy 1 accepts an article near the top and wide enough to be the main column. */
  predicate ArticleAccepts(c: Container) {
    c.rect.top < 500 && c.rect.width > 500 && HasValidVideo(c)
  }

  /** Strategy 2 accepts a tweet container near the top. */
  predicate TweetAccepts(c: Container) {
    c.rect.top < 600 && HasValidVideo(c)
  }

  /** Strategy 3 accepts a valid video of the primary column near the top. */
  predicate ColumnAccepts(v: Video) {
    IsVideoValid(v) && v.rect.top < 800
  }

  function Area(r: Rect): nat {
    r.width * r.height
  }

  /** Strategy 4 considers a valid video larger than 10000 square pixels that lies wholly in the viewport. */
  predicate Eligible(p: Page, v: Video) {
    IsVideoValid(v) && Area(v.rect) > 10000 && IsElementInViewport(p, v.rect)
  }

  // ---------------------------------------------------------------- specification

  function ByTimelineArticle(p: Page): Option<Candidate> {
    var k := FirstIndex(p.articles, ArticleAccepts);
    if k < |p.articles| then Some(Candidate(p.articles[k].firstVideo.value, "timeline_article", High)) else None
  }

  function ByTweetTestId(p: Page): Option<Candidate> {
    var k := FirstIndex(p.tweets, TweetAccepts);
    if k < |p.tweets| then Some(Candidate(p.tweets[k].firstVideo.value, "tweet_testid", High)) else None
  }

  function ByPrimaryColumn(p: Page): Option<Candidate> {
    match p.primaryColumn
    case None => None
    case Some(vs) =>
      var k := FirstIndex(vs, ColumnAccepts);
      if k < |vs| then Some(Candidate(vs[k], "primary_column", Medium)) else None
  }

  /**
   * The earliest eligible video of largest area, or `|vs|` when no video is
   * eligible.  Written from the back of the list, keeping the front video on a
   * tie, which is a different route to the same choice than the script's
   * running maximum with a strict `>`.
   */
  function LargestIndex(p: Page, vs: seq<Video>): (k: nat)
    ensures k <= |vs|
    ensures k == |vs| <==> forall j | 0 <= j < |vs| :: !Eligible(p, vs[j])
    ensures k < |vs| ==> Eligible(p, vs[k])
    ensures k < |vs| ==> forall j | 0 <= j < |vs| && Eligible(p, vs[j]) :: Area(vs[j].rect) <= Area(vs[k].rect)
    ensures k < |vs| ==> forall j | 0 <= j < k && Eligible(p, vs[j]) :: Area(vs[j].rect) < Area(vs[k].rect)
  {
    if vs == [] then 0
    else
      var k := LargestIndex(p, vs[1..]);
      if Eligible(p, vs[0]) && (k == |vs| - 1 || Area(vs[0].rect) >= Area(vs[k + 1].rect)) then 0 else k + 1
  }

  function ByLargestVideo(p: Page): Option<Candidate> {
    var k := LargestIndex(p, p.videos);
    if k < |p.videos| then Some(Candidate(p.videos[k], "largest_visible", Low)) else None
  }

  /** The confidence each strategy reports with its video. */
  function Rank(s: Strategy): Confidence {
    match s
    case TimelineArticle => High
    case TweetTestId => High
    case PrimaryColumn => Medium
    case LargestVideo => Low
  }

  /** What the strategy itself returns when it runs to completion. */
  function Run(s: Strategy, p: Page): Option<Candidate> {
    match s
    case TimelineArticle => ByTimelineArticle(p)
    case TweetTestId => ByTweetTestId(p)
    case PrimaryColumn => ByPrimaryColumn(p)
    case LargestVideo => ByLargestVideo(p)
  }

  /** One turn of the chain's `try`: a match, no match, or an exception that was caught. */
  datatype Attempt = Found(candidate: Candidate) | NoMatch | Raised

  function Try(s: Strategy, p: Page): Attempt {
    if s in p.raising then Raised
    else match Run(s, p)
      case Some(c) => Found(c)
      case None => NoMatch
  }

  function Attempts(p: Page): seq<Attempt> {
    seq(|Order|, i requires 0 <= i < |Order| => Try(Order[i], p))
  }

  lemma AttemptsInOrder(p: Page)
    ensures |Attempts(p)| == |Order|
    ensures forall i | 0 <= i < |Order| :: Attempts(p)[i] == Try(Order[i], p)
  {
  }

  /** First-success-wins over a list of attempts: anything but `Found` passes the turn on. */
  function FirstFound(attempts: seq<Attempt>): (r: Option<Candidate>)
    ensures r.None? <==> forall i | 0 <= i < |attempts| :: !attempts[i].Found?
    ensures r.Some? ==> exists i | 0 <= i < |attempts| ::
      attempts[i] == Found(r.value) && forall j | 0 <= j < i :: !attempts[j].Found?
  {
    if attempts == [] then None
    else if attempts[0].Found? then Some(attempts[0].candidate)
    else
      var r := FirstFound(attempts[1..]);
      assert r.Some? ==> exists i | 0 <= i < |attempts| ::
        attempts[i] == Found(r.value) && forall j | 0 <= j < i :: !attempts[j].Found?
      by {
        if r.Some? {
          var i :| 0 <= i < |attempts| - 1 && attempts[1..][i] == Found(r.value) &&
            forall j | 0 <= j < i :: !attempts[1..][j].Found?;
          assert attempts[i + 1] == Found(r.value);
          assert forall j | 0 <= j < i + 1 :: !attempts[j].Found? by {
            forall j | 0 <= j < i + 1 ensures !attempts[j].Found? {
              if j > 0 { assert attempts[j] == attempts[1..][j - 1]; }
            }
          }
        }
      }
      r
  }

  /** `findMainVideoWithMultipleStrategies` */
  function MainVideo(p: Page): Option<Candidate> {
    FirstFound(Attempts(p))
  }

  // ---------------------------------------------------------------- the script's loops

  /** Strategy 1, `findVideoInTimelineArticle`. */
  method FindVideoInTimelineArticle(p: Page) returns (r: Option<Candidate>)
    ensures r == ByTimelineArticle(p)
  {
    for i := 0 to |p.articles|
      invariant forall j | 0 <= j < i :: !ArticleAccepts(p.articles[j])
    {
      var article := p.articles[i];
      var rect := article.rect;
      if rect.top < 500 && rect.width > 500 {
        var video := article.firstVideo;
        if video.Some? && IsVideoValid(video.value) {
          return Some(Candidate(video.value, "timeline_article", High));
        }
      }
    }
    return None;
  }

  /** Strategy 2, `findVideoInTweetTestId`. */
  method FindVideoInTweetTestId(p: Page) returns (r: Option<Candidate>)
    ensures r == ByTweetTestId(p)
  {
    for i := 0 to |p.tweets|
      invariant forall j | 0 <= j < i :: !TweetAccepts(p.tweets[j])
    {
      var container := p.tweets[i];
      if container.rect.top < 600 {
        var video := container.firstVideo;
        if video.Some? && IsVideoValid(video.value) {
          return Some(Candidate(video.value, "tweet_testid", High));
        }
      }
    }
    return None;
  }

  /** Strategy 3, `findVideoInPrimaryColumn`. */
  method FindVideoInPrimaryColumn(p: Page) returns (r: Option<Candidate>)
    ensures r == ByPrimaryColumn(p)
  {
    if p.primaryColumn.Some? {
      var videos := p.primaryColumn.value;
      for i := 0 to |videos|
        invariant forall j | 0 <= j < i :: !ColumnAccepts(videos[j])
      {
        var video := videos[i];
        if IsVideoValid(video) {
          if video.rect.top < 800 {
            return Some(Candidate(video, "primary_column", Medium));
          }
        }
      }
    }
    return None;
  }

  /** Strategy 4, `findLargestVideo`: a running maximum kept in `bestVideo` and `bestSize`. */
  method FindLargestVideo(p: Page) returns (r: Option<Candidate>)
    ensures r == ByLargestVideo(p)
  {
    var videos := p.videos;
    var bestVideo: Option<Video> := None;
    var bestSize: nat := 0;
    ghost var best: nat := 0;
    for i := 0 to |videos|
      invariant best <= i
      invariant bestVideo.None? ==> bestSize == 0 && forall j | 0 <= j < i :: !Eligible(p, videos[j])
      invariant bestVideo.Some? ==> best < i && bestVideo.value == videos[best] && Eligible(p, videos[best])
      invariant bestVideo.Some? ==> bestSize == Area(videos[best].rect)
      invariant forall j | 0 <= j < i && Eligible(p, videos[j]) :: Area(videos[j].rect) <= bestSize
      invariant forall j | 0 <= j < best && Eligible(p, videos[j]) :: Area(videos[j].rect) < bestSize
    {
      var video := videos[i];
      if IsVideoValid(video) {
        var size := video.rect.width * video.rect.height;
        if size > 10000 && IsElementInViewport(p, video.rect) {
          if size > bestSize {
            bestSize := size;
            bestVideo := Some(video);
            best := i;
          }
        }
      }
    }
    ghost var k := LargestIndex(p, videos);
    if bestVideo.Some? {
      assert k == best;
      r := Some(Candidate(bestVideo.value, "largest_visible", Low));
    } else {
      r := None;
    }
  }

  /** The `try { strategy.method() } catch` around one strategy. */
  method TryStrategy(s: Strategy, p: Page) returns (a: Attempt)
    ensures a == Try(s, p)
  {
    if s in p.raising {
      return Raised;
    }
    var result: Option<Candidate>;
    match s {
      case TimelineArticle => result := FindVideoInTimelineArticle(p);
      case TweetTestId => result := FindVideoInTweetTestId(p);
      case PrimaryColumn => result := FindVideoInPrimaryColumn(p);
      case LargestVideo => result := FindLargestVideo(p);
    }
    a := if result.Some? then Found(result.value) else NoMatch;
  }

  /** `findMainVideoWithMultipleStrategies`: the first strategy, in `Order`, that finds a video wins. */
  method FindMainVideoWithMultipleStrategies(p: Page) returns (r: Option<Candidate>)
    ensures r == MainVideo(p)
  {
    ghost var attempts := Attempts(p);
    for i := 0 to |Order|
      invariant forall j | 0 <= j < i :: !attempts[j].Found?
    {
      var attempt := TryStrategy(Order[i], p);
      if attempt.Found? {
        FirstFoundAt(attempts, i);
        return Some(attempt.candidate);
      }
    }
    return None;
  }

  // ---------------------------------------------------------------- properties

  /** The first `Found` decides the chain, whatever comes after it. */
  lemma FirstFoundAt(attempts: seq<Attempt>, i: nat)
    requires i < |attempts| && attempts[i].Found?
    requires forall j | 0 <= j < i :: !attempts[j].Found?
    ensures FirstFound(attempts) == Some(attempts[i].candidate)
  {
  }

  /** Passing over an attempt that did not find anything changes nothing: a caught exception only hands the turn on. */
  lemma {:induction false} FirstFoundSkip(attempts: seq<Attempt>, i: nat)
    requires i < |attempts| && !attempts[i].Found?
    ensures FirstFound(attempts) == FirstFound(attempts[..i] + attempts[i + 1..])
  {
    var rest := attempts[..i] + attempts[i + 1..];
    if i == 0 {
      assert rest == attempts[1..];
    } else if !attempts[0].Found? {
      FirstFoundSkip(attempts[1..], i - 1);
      assert rest[1..] == attempts[1..][..i - 1] + attempts[1..][i..];
    }
  }

  /** Strategy 1 picks the first video of the first article above 500 px and wider than 500 px whose video is valid. */
  lemma TimelineArticleChoice(p: Page)
    ensures ByTimelineArticle(p).None? <==> forall i | 0 <= i < |p.articles| :: !ArticleAccepts(p.articles[i])
    ensures ByTimelineArticle(p).Some? ==>
      var c := ByTimelineArticle(p).value;
      c.source == "timeline_article" && c.confidence == High && IsVideoValid(c.video) &&
      exists i | 0 <= i < |p.articles| ::
        p.articles[i].rect.top < 500 && p.articles[i].rect.width > 500 && p.articles[i].firstVideo == Some(c.video) &&
        forall j | 0 <= j < i :: !ArticleAccepts(p.articles[j])
  {
  }

  /** Conversely, the first accepting article is the one strategy 1 picks. */
  lemma TimelineArticleFirst(p: Page, i: nat)
    requires i < |p.articles| && ArticleAccepts(p.articles[i])
    requires forall j | 0 <= j < i :: !ArticleAccepts(p.articles[j])
    ensures ByTimelineArticle(p) == Some(Candidate(p.articles[i].firstVideo.value, "timeline_article", High))
  {
  }

  /** Strategy 2 picks the video of the first tweet container above 600 px whose video is valid. */
  lemma TweetTestIdChoice(p: Page)
    ensures ByTweetTestId(p).None? <==> forall i | 0 <= i < |p.tweets| :: !TweetAccepts(p.tweets[i])
    ensures ByTweetTestId(p).Some? ==>
      var c := ByTweetTestId(p).value;
      c.source == "tweet_testid" && c.confidence == High && IsVideoValid(c.video) &&
      exists i | 0 <= i < |p.tweets| ::
        p.tweets[i].rect.top < 600 && p.tweets[i].firstVideo == Some(c.video) &&
        forall j | 0 <= j < i :: !TweetAccepts(p.tweets[j])
  {
  }

  lemma TweetTestIdFirst(p: Page, i: nat)
    requires i < |p.tweets| && TweetAccepts(p.tweets[i])
    requires forall j | 0 <= j < i :: !TweetAccepts(p.tweets[j])
    ensures ByTweetTestId(p) == Some(Candidate(p.tweets[i].firstVideo.value, "tweet_testid", High))
  {
  }

  /** Strategy 3 finds nothing without a primary column, else the first valid video of it above 800 px. */
  lemma PrimaryColumnChoice(p: Page)
    ensures p.primaryColumn.None? ==> ByPrimaryColumn(p).None?
    ensures p.primaryColumn.Some? ==>
      var vs := p.primaryColumn.value;
      (ByPrimaryColumn(p).None? <==> forall i | 0 <= i < |vs| :: !ColumnAccepts(vs[i])) &&
      (ByPrimaryColumn(p).Some? ==>
        var c := ByPrimaryColumn(p).value;
        c.source == "primary_column" && c.confidence == Medium && IsVideoValid(c.video) && c.video.rect.top < 800 &&
        exists i | 0 <= i < |vs| :: vs[i] == c.video && forall j | 0 <= j < i :: !ColumnAccepts(vs[j]))
  {
  }

  lemma PrimaryColumnFirst(p: Page, i: nat)
    requires p.primaryColumn.Some? && i < |p.primaryColumn.value|
    requires ColumnAccepts(p.primaryColumn.value[i])
    requires forall j | 0 <= j < i :: !ColumnAccepts(p.primaryColumn.value[j])
    ensures ByPrimaryColumn(p) == Some(Candidate(p.primaryColumn.value[i], "primary_column", Medium))
  {
  }

  /**
   * Strategy 4 finds nothing when no video is eligible; otherwise it picks an
   * eligible video of maximal area, the earliest one among equals.
   */
  lemma LargestVideoChoice(p: Page)
    ensures ByLargestVideo(p).None? <==> forall i | 0 <= i < |p.videos| :: !Eligible(p, p.videos[i])
    ensures ByLargestVideo(p).Some? ==>
      var c := ByLargestVideo(p).value;
      c.source == "largest_visible" && c.confidence == Low &&
      IsVideoValid(c.video) && IsElementInViewport(p, c.video.rect) && Area(c.video.rect) > 10000 &&
      exists k | 0 <= k < |p.videos| :: p.videos[k] == c.video &&
        (forall j | 0 <= j < |p.videos| && Eligible(p, p.videos[j]) :: Area(p.videos[j].rect) <= Area(c.video.rect)) &&
        (forall j | 0 <= j < k && Eligible(p, p.videos[j]) :: Area(p.videos[j].rect) < Area(c.video.rect))
  {
  }

  /** No strategy ever returns a video whose width or height is unknown. */
  lemma RunValid(s: Strategy, p: Page)
    ensures Run(s, p).Some? ==> IsVideoValid(Run(s, p).value.video)
    ensures Run(s, p).Some? ==> Run(s, p).value.confidence == Rank(s)
  {
  }

  /**
   * The chain returns the candidate of the first strategy in `Order` that
   * finds one, and nothing when none does; whatever it returns is valid.
   */
  lemma MainVideoChoice(p: Page)
    ensures MainVideo(p).None? <==> forall s :: !Try(s, p).Found?
    ensures MainVideo(p).Some? ==> IsVideoValid(MainVideo(p).value.video)
    ensures MainVideo(p).Some? ==> exists i | 0 <= i < |Order| ::
      Try(Order[i], p) == Found(MainVideo(p).value) && forall j | 0 <= j < i :: !Try(Order[j], p).Found?
  {
    var a := Attempts(p);
    AttemptsInOrder(p);
    if MainVideo(p).Some? {
      var i :| 0 <= i < |a| && a[i] == Found(MainVideo(p).value) && forall j | 0 <= j < i :: !a[j].Found?;
      RunValid(Order[i], p);
    } else {
      forall s ensures !Try(s, p).Found? {
        var k := match s
          case TimelineArticle => 0
          case TweetTestId => 1
          case PrimaryColumn => 2
          case LargestVideo => 3;
        assert Order[k] == s && a[k] == Try(s, p);
      }
    }
  }

  /** Conversely, when strategy `Order[i]` finds a video and no earlier one does, that is the chain's answer. */
  lemma MainVideoFirst(p: Page, i: nat)
    requires i < |Order| && Try(Order[i], p).Found?
    requires forall j | 0 <= j < i :: !Try(Order[j], p).Found?
    ensures MainVideo(p) == Some(Try(Order[i], p).candidate)
  {
    AttemptsInOrder(p);
    FirstFoundAt(Attempts(p), i);
  }

  /** A strategy that throws is left out of the chain, and the strategies after it still decide. */
  lemma RaisingStrategySkipped(p: Page, i: nat)
    requires i < |Order| && Order[i] in p.raising
    ensures MainVideo(p) == FirstFound(Attempts(p)[..i] + Attempts(p)[i + 1..])
  {
    FirstFoundSkip(Attempts(p), i);
  }

  /**
   * Outside every container, of two fully visible videos of 15000 and 40000
   * square pixels the chain picks the larger, with low confidence.
   */
  lemma LargestVideoExample()
    ensures
      var small := Video(640, 360, "", "", [], Rect(10, 10, 150, 100), NaN);
      var large := Video(640, 360, "", "", [], Rect(200, 10, 200, 200), NaN);
      var p := Page("https://x.com/a/status/1", [], [], None, [small, large], 1280, 720, 1280, 720, {});
      MainVideo(p) == Some(Candidate(large, "largest_visible", Low))
  {
  }
}
