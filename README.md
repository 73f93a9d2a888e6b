# Main-post video locator of the X video content script

This project models `content.js`, the content script that finds the video of
the post a user is looking at on X (Twitter) and gives back a URL for it. On a
`detectVideo` request, `detectMainPostVideo`:

1. checks that the page is a single-post page (`/status/` in the URL);
2. tries four strategies in a fixed order, and the first video found wins.
   The strategies are: a video in a timeline `<article>` near the top, a video
   in a `[data-testid="tweet"]` container near the top, a video in the primary
   column, and the largest valid video that is fully on screen. A strategy
   that throws is skipped;
3. extracts a direct media URL from the chosen `<video>`. When there is none,
   it hands back the video's `src`, or `currentSrc` when `src` is empty,
   whatever that URL is, and flags the answer as `isBlobUrl` and
   `requiresManual`;
4. labels the answer with the duration as `M:SS`, the quality as `WxH`, the
   strategy's source name and its confidence.

The page is a value (`Page.Page`): the answers that `querySelectorAll`,
`querySelector`, `getBoundingClientRect`, `window.location.href` and the
viewport size give during one scan. `Page.raising` names the strategies whose
DOM reads throw on that page. Each strategy is written twice:

- a specification function (`Strategies.ByTimelineArticle`, ...);
- a method with the script's own loop and early `return`, proved to return
  what the function says. `FindLargestVideo` keeps the script's running
  `bestVideo`/`bestSize`.

The lemmas state what the functions promise: first match, validity,
confidence, maximal area with ties to the earliest video, and order of the
chain. `DurationLabel.DecodeClock` is not part of the script. It reads an
`M:SS` clock back, so that the round trip of `formatDuration` can be stated.

The model follows the code as written. Some of its behaviour is easy to miss:

- When no direct URL exists, the answer is still a success. Its URL is
  `src || currentSrc` and may be empty (`Detection.EmptyBlobUrlIsSuccess`).
  The chain does not go on to the next strategy in that case.
- `formatDuration(Infinity)` gives `"Infinity:NaN"`, not `"Unknown"`
  (`DurationLabel.FormatDurationUnknown`).
- The second strategy checks only `data-testid="tweet"` and always reports
  `high`. The largest-video strategy has source name `largest_visible` while
  its table name is `largest_video`.
- The quality label is never `"Unknown"`. A chosen video always has positive
  dimensions.

## Model

| member | source | states |
|---|---|---|
| `Page.TweetPageIsStatusSegment` | content.js:83-86 | the post-page test holds exactly when the URL contains `/status/`; the `/i/status/` test never changes the outcome |
| `Page.InViewportIffEveryPoint` | content.js:216-224 | an element is in the viewport iff every point of its box lies between the origin and the viewport's width and height, each taken from `window` or else from the document element |
| `Search.FirstIndex` | content.js:116-128 | the index returned is the first element the test accepts, or the length when none is accepted |
| `Strategies.FindVideoInTimelineArticle` | content.js:113-130 | the loop over articles returns exactly what `ByTimelineArticle` specifies |
| `Strategies.TimelineArticleChoice` | content.js:113-130 | strategy 1 finds nothing iff no article is above 500 px, wider than 500 px and has a valid first video; otherwise it returns the first such article's video as `timeline_article`/high |
| `Strategies.TimelineArticleFirst` | content.js:116-126 | the first accepting article is the one strategy 1 returns |
| `Strategies.FindVideoInTweetTestId` | content.js:133-150 | the loop over tweet containers returns exactly what `ByTweetTestId` specifies |
| `Strategies.TweetTestIdChoice` | content.js:133-150 | strategy 2 finds nothing iff no container is above 600 px with a valid first video; otherwise it returns the first one's video as `tweet_testid`/high |
| `Strategies.TweetTestIdFirst` | content.js:136-146 | the first accepting tweet container is the one strategy 2 returns |
| `Strategies.FindVideoInPrimaryColumn` | content.js:153-172 | the loop over the primary column's videos returns exactly what `ByPrimaryColumn` specifies |
| `Strategies.PrimaryColumnChoice` | content.js:153-172 | strategy 3 finds nothing without a primary column; otherwise it finds nothing iff no valid video of the column is above 800 px, else returns the first one as `primary_column`/medium |
| `Strategies.PrimaryColumnFirst` | content.js:155-169 | the first accepting column video is the one strategy 3 returns |
| `Strategies.LargestIndex` | content.js:175-204 | picks an eligible video (valid, fully in the viewport, area over 10000) of maximal area, the earliest among equals, or none iff no video is eligible |
| `Strategies.FindLargestVideo` | content.js:175-204 | the running maximum with strict `>` returns exactly what `ByLargestVideo` specifies |
| `Strategies.LargestVideoChoice` | content.js:181-203 | strategy 4 finds nothing iff no video is eligible; otherwise it returns an eligible video of maximal area, earliest on ties, as `largest_visible`/low |
| `Strategies.LargestVideoExample` | content.js:175-204 | of two visible videos of 15000 and 40000 px² outside any container, the chain picks the 40000 px² one with low confidence |
| `Strategies.RunValid` | content.js:206-213 | no strategy returns a video without positive width and height, and each reports its fixed confidence |
| `Strategies.FirstFound` | content.js:97-109 | the chain yields nothing iff no attempt found a video, else the first found candidate |
| `Strategies.FirstFoundAt` | content.js:97-103 | the first attempt that finds a video decides the chain |
| `Strategies.FirstFoundSkip` | content.js:98-106 | an attempt that finds nothing or throws can be removed without changing the chain's result |
| `Strategies.TryStrategy` | content.js:98-106 | one `try`: a strategy that throws gives `Raised`, otherwise its match or no match |
| `Strategies.FindMainVideoWithMultipleStrategies` | content.js:89-110 | the loop over strategies returns exactly the first-success-wins result `MainVideo` |
| `Strategies.MainVideoChoice` | content.js:89-110 | the chain returns nothing iff no strategy finds a video; otherwise a valid video from the first strategy in order that finds one |
| `Strategies.MainVideoFirst` | content.js:97-103 | when strategy i finds a video and no earlier one does, that is the chain's answer |
| `Strategies.RaisingStrategySkipped` | content.js:104-106 | a throwing strategy is left out and the later strategies still decide |
| `VideoUrl.DirectUrlIffHttpMedia` | content.js:247-256 | a URL is direct iff it starts with `http` and contains `.mp4`, `video.twimg.com` or `.m3u8`; the `blob:` test never decides |
| `VideoUrl.FirstDirectSource` | content.js:236-241 | returns the first direct child source, or none iff no child source is direct |
| `VideoUrl.DirectUrlChoice` | content.js:227-244 | the extracted URL is direct and taken from the video, in the priority `src`, a different `currentSrc`, child sources; none iff none of them is direct |
| `VideoUrl.ExtractDirectVideoUrl` | content.js:227-244 | the method with its loop over `<source>` children returns exactly `DirectUrl` |
| `DurationLabel.SecondsPart` | content.js:262 | the seconds shown are below 60 |
| `DurationLabel.SplitSeconds` | content.js:261-262 | minutes times 60 plus seconds is the whole number of seconds |
| `DurationLabel.FormatDurationRoundTrip` | content.js:259-264 | the `M:SS` label of a positive duration reads back as its whole seconds |
| `DurationLabel.FormatDurationUnknown` | content.js:259-260 | the label is `Unknown` exactly for NaN and zero (not for an infinite duration) |
| `DurationLabel.FormatDurationExample` | content.js:259-264 | 125 seconds gives `2:05` |
| `Text.NatToString` | content.js:263 | a number renders as a non-empty string of digits without a leading zero |
| `Text.NatToStringRoundTrip` | content.js:263 | reading the decimal rendering back gives the number |
| `Text.PadStart2` | content.js:263 | padding gives length 2 for shorter strings, keeps the string as the suffix and adds only `0`s |
| `Detection.DetectMainPostVideo` | content.js:26-80 | the method returns exactly `Detect`, the answer for the page |
| `Detection.NotTweetPageFails` | content.js:29-34 | off a post page the answer is the navigation error and depends on the URL alone |
| `Detection.DetectSucceeds` | content.js:26-80 | success iff post page and some strategy finds a video; otherwise the matching error text, and on a post page no strategy found anything |
| `Detection.AnswerFlags` | content.js:38-73 | an answer is direct iff a direct URL was extracted: then that URL, type `MP4`, the plain source name; otherwise all three flags inverted, URL `src`, or `currentSrc` when `src` is empty, type `Video`, source name with `_blob`; duration, quality and confidence from the candidate |
| `Detection.DetectAnswer` | content.js:36-41 | on a post page the answer is built from the chain's candidate, which is valid, and its extracted URL; a direct answer's URL is a direct media URL |
| `Detection.EmptyBlobUrlIsSuccess` | content.js:56-72 | a video with no `src` and no `currentSrc` still gives a success, with an empty URL |
| `Detection.TimelineArticleWins` | content.js:89-130 | on a post page, the valid video of the first accepting article is the answer with high confidence, whatever other videos exist |

The core definitions carry no contract of their own. Each is stated by the
lemma named beside it:

- `Page.IsTweetPage` (content.js:83-86): definition; see `Page.TweetPageIsStatusSegment`.
- `Page.IsVideoValid` (content.js:207-213): definition; see `Strategies.RunValid`, `Strategies.MainVideoChoice` and `Detection.DetectAnswer`.
- `Page.IsElementInViewport` (content.js:216-224): definition; see `Page.InViewportIffEveryPoint` and `Strategies.LargestVideoChoice`.
- `VideoUrl.IsDirectVideoUrl` (content.js:247-256): definition; see `VideoUrl.DirectUrlIffHttpMedia`.
- `VideoUrl.DirectUrl` (content.js:227-244): definition; see `VideoUrl.DirectUrlChoice` and `VideoUrl.ExtractDirectVideoUrl`.
- `DurationLabel.FormatDuration` (content.js:259-264): definition; see `DurationLabel.FormatDurationRoundTrip`, `DurationLabel.FormatDurationUnknown` and `DurationLabel.FormatDurationExample`.
- `Strategies.Attempts` (content.js:90-106): definition, the strategies tried in `Page.Order`; see `Strategies.MainVideoChoice` and `Strategies.MainVideoFirst`.
- `Detection.Detect` (content.js:26-80): definition; see `Detection.DetectSucceeds`, `Detection.DetectAnswer` and `Detection.DetectMainPostVideo`.
- `Detection.Answer` (content.js:38-73): definition; see `Detection.AnswerFlags`.

## Left out

- The message listener, `sendResponse` and the `catch` around `detectMainPostVideo` (content.js:5-23), and every `console.log`: transport and logging only.
- Real DOM queries, `getBoundingClientRect`, `window.location` and the viewport size are foreign browser APIs. They are replaced by the `Page` snapshot.
- Geometry is in whole pixels, not floating-point values. This applies to the 500/600/800 px thresholds, the area floor of 10000 and the area comparison in `Strategies.FindLargestVideo`.
- Where a strategy throws is not modelled. Any exception aborts the whole strategy, so `Page.raising` records only which strategies throw.
- Element identity is not modelled. A video is a value, so two identical `<video>` elements cannot be told apart.
- The `typeof` tests are not modelled. With the model's types, `typeof ... === 'number'` (content.js:209-210) is always true and `typeof url !== 'string'` (content.js:248) is always false.
- DurationLabel.FormatDuration: `${mins}` writes a number in exponent form (`1e+21`) once it reaches 10^21, while `Text.NatToString` always writes plain digits. The label of a duration of 6·10^22 seconds or more is therefore not modelled.
- The duration is a non-negative real, `NaN` or `+Infinity`, as an HTML media element reports it. The rounding of floating-point `/` and `%` is not modelled.
- popup.js, background.js and content-script.js are not part of this model. They hold UI rendering, download/storage/badge wrappers, and a simpler duplicate detector with a settle delay.
