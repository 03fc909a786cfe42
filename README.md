# Snake engine and news helpers, modelled in Dafny

The repository holds two independent browser scripts.

`game.js` is a Snake game on a square grid of `TILE_COUNT` x `TILE_COUNT` cells. The
body is a head-first list of cells. A timer tick moves it one cell along the heading
`(dx, dy)`. Eating the food grows the body by one cell and scores 10 points; the high
score follows the score. Leaving the grid or running into the body ends the game. The
arrow keys turn the snake and Space pauses it.

`news.js` is a news dashboard. It keeps settings (API key, topic, language, country,
result limit) and fetches articles, falling back to built-in samples without a key or
on failure. The first three articles are shown as top stories and the rest as latest
stories. Each card shows a summary of the article text and a "source · time ago" line.

The Dafny project has one module per script:

- `game.dfy`, module `Snake`: the class `SnakeGame`. Its fields are the script's
  module-level variables. Its methods are the handlers, each proved to keep the
  invariant `Valid()`, which states:
  - the score is 10 points per cell grown;
  - the high score is at least the score;
  - the food is on a free grid cell;
  - the heading is a unit step along one axis;
  - the game is paused only while it runs.

  The handlers also keep `OnBoard()`: while the game runs, every body cell is on the
  grid. `moveSnake` alone can put the head off the grid; the same tick then ends the
  game. The method `FirstTickScenario` plays the first tick of a fresh game, and two
  more scenarios end a game at the left wall and on the snake's own body.
- `news.dfy`, module `News`, which has two parts:
  - Pure functions: the summary pipeline (bracket removal, white-space collapsing,
    trimming, sentence splitting), the relative-time buckets, the meta line, the
    split into the two story lists, the fallback marking, the limit defaulting and
    the request parameters.
  - The class `NewsBoard` for the shared `state` object.

Randomness, the clock and the network are parameters:

- `Math.random` in `generateFood` becomes `draws`, the sequence of cells the random
  draws produce.
- `Date.now()` becomes `now`.
- `toLocaleDateString` becomes a `dateLabel` function.
- The response of `fetch` becomes a `FetchResult`.

## Model

| member | source | states |
|---|---|---|
| Snake.SnakeGame.constructor | game.js:11-19 | the flags start cleared, the high score is the stored one, and the state is what initGame leaves (the script calls initGame once at load, game.js:329); the board holds the starting body |
| Snake.SnakeGame.InitGame | game.js:32-57 | the body is exactly (10,10),(9,10),(8,10), the heading is (1,0), the score is 0, the food is the first draw off the body, and high score and flags are untouched |
| Snake.FirstFreeIndex | game.js:64-78 | the index of the draw the rejection loop keeps: that draw is off the body and every earlier draw is on it |
| Snake.SnakeGame.OnSnake | game.js:72-77 | the inner scan answers true exactly when the cell is one of the body's segments |
| Snake.SnakeGame.GenerateFood | game.js:60-81 | the food becomes the first draw that is off the body, so it is a grid cell not occupied by the snake |
| Snake.Advance | game.js:147-172 | the new head is the old head plus the heading; the rest is the old body, whole when the head lands on the food and without its tail cell otherwise; the length grows by one exactly on the food |
| Snake.SnakeGame.MoveSnake | game.js:145-173 | the body advances; on the food the score grows by exactly 10 and new food is drawn, otherwise score and food stay; the high score becomes the larger of itself and the score; the heading and the flags stay; the invariant is kept |
| Snake.Collides | game.js:176-193 | a collision is exactly a head off the grid or a head equal to one of the later body cells |
| Snake.SnakeGame.CheckCollision | game.js:176-193 | the scan answers true exactly when the body collides |
| Snake.SnakeGame.Tick | game.js:196-211 | nothing changes while paused; otherwise the body advances, the score, food and high score update as in moveSnake, the heading stays, and the game keeps running exactly when it ran and the new body does not collide; while the game runs every body cell is on the grid |
| Snake.LeftWallScenario | game.js:179-183 | a running snake at the left edge heading left leaves the grid on the next tick, and the game is over |
| Snake.SelfCollisionScenario | game.js:185-190 | a five-cell snake turning into its own body puts its head on a body cell on the next tick, and the game is over |
| Snake.SnakeGame.StartGame | game.js:214-227 | afterwards the game runs unpaused; from a stopped game the state is freshly initialised, from a running or paused one body, food, score and heading are untouched |
| Snake.SnakeGame.PauseGame | game.js:230-242 | the pause flag flips while the game runs and is left alone otherwise |
| Snake.SnakeGame.GameOver | game.js:245-248 | both flags are cleared and the invariant is kept |
| Snake.SnakeGame.RestartGame | game.js:268-278 | both flags are cleared, the state is freshly initialised and the high score is kept |
| Snake.SnakeGame.KeyDown | game.js:281-321 | Space does what pauseGame does; an arrow changes the heading only while the game runs unpaused, and then as the direction rule says; the heading stays a unit axis step |
| Snake.Steer | game.js:293-320 | Up/Down are taken exactly when dy is 0 and Left/Right exactly when dx is 0; a taken key sets its own heading, which then is perpendicular to the old one; any other key leaves the heading unchanged |
| Snake.SteerKeepsUnitAxis | game.js:293-320 | one key keeps a unit heading a unit heading and never turns it into its reverse |
| Snake.ReverseKeyIgnored | game.js:293-320 | the key of the exactly opposite direction leaves the heading unchanged |
| Snake.TwoTurnsCanReverse | game.js:293-320 | from the start heading, Up then Left before a tick makes the heading the reverse of the start heading, because the rule compares with the stored heading and not with the last move |
| News.StripBrackets | news.js:204 | the result keeps only characters of the text and contains no `[` followed later by `]` |
| News.NoClosedBracketMeans | news.js:204 | the recursive no-bracket-pair predicate holds exactly when no position holding `[` has a later position holding `]` |
| News.StripBracketsKeepsPlainText | news.js:204 | a text without `[` passes through unchanged |
| News.StripBracketsKeepsUnclosed | news.js:204 | a text without `]` passes through unchanged, an unclosed `[` included |
| News.StripBracketsRemovesFirstPair | news.js:204 | for a text x without `[`, then `[`, then y without `]`, then `]`, then z: the result is x followed by the result for z |
| News.Trim | news.js:206 | the trimmed text neither starts nor ends with white space |
| News.TrimDropsOnlySpace | news.js:206 | the trimmed text is a slice of the text, and everything before and after that slice is white space |
| News.TrimKeepsNonSpace | news.js:206 | trimming removes no character that is not white space |
| News.TrimKeepsWords | news.js:206 | trimming keeps the words (maximal runs of non-space characters), in order |
| News.Collapse | news.js:205 | the result is empty exactly when the text is, starts with white space exactly when the text does, and is single-spaced: every white-space character is a plain space and no two are adjacent |
| News.CollapseKeepsWords | news.js:205 | the collapsed text has exactly the words of the text, in order |
| News.CollapseKeepsEndSpace | news.js:205 | the collapsed text ends with white space exactly when the text does |
| News.CollapseKeepsNonSpace | news.js:205 | collapsing removes no character that is not white space |
| News.CollapseKeepsSingleSpaced | news.js:205 | a single-spaced text is left unchanged |
| News.Clean | news.js:203-206 | the cleaned text neither starts nor ends with white space |
| News.CleanTextIsNormalised | news.js:203-206 | the cleaned text is single-spaced, has no white space at either end, has no `[` followed later by `]`, keeps every non-space character the bracket removal kept, and has exactly the words the bracket removal left |
| News.Sentences | news.js:208 | every match is a non-empty run of non-terminators ending in at most one terminator, and every match but the last ends in a terminator; there is no match exactly when the text is all terminators |
| News.SentencesCoverText | news.js:208 | the matches, concatenated, are the text less exactly the terminators that start it or follow another terminator; white space and all other characters are kept in order |
| News.SentencesKeepContent | news.js:208 | the matches, concatenated, hold every character of the text that is neither white space nor a terminator, in order |
| News.Join | news.js:209 | joining with spaces keeps the non-space characters of the parts, in order, and adds none; a separator falls between every two parts, so the words of the result are the words of each part in turn |
| News.JoinKeepsContent | news.js:209 | joining with spaces adds no content character |
| News.LeadingSentences | news.js:208-209 | the joined leading sentences neither start nor end with white space, their non-space characters are exactly those of the first maxSentences sentences, in order, and their words are the words of those sentences in turn |
| News.LeadingSentencesArePrefix | news.js:208-209 | the content of the leading sentences begins the content of the cleaned text, and is all of it when there are at most that many sentences |
| News.Summarize | news.js:200-212 | a missing text gives the fixed placeholder; otherwise the summary has no white space at either end and is either the cleaned text or longer than 20 characters |
| News.SummaryIsLeadingPart | news.js:200-212 | a missing text gives the fixed placeholder; when the leading sentences make at most 20 characters the summary is the cleaned text, and otherwise its non-space characters and its words are those of the first maxSentences sentences; its content begins the cleaned text's content, and is all of it when there are at most maxSentences sentences |
| News.SummaryContent | news.js:208-211 | the content of the summary begins the content of the cleaned text, and is all of it when no sentence is cut off |
| News.NatToString | news.js:222-229 | the decimal text of a count is non-empty, all digits, and starts with 0 only for 0 |
| News.NatToStringRoundTrip | news.js:222-229 | reading the digits back gives the number |
| News.RelativeAge | news.js:214-235 | the bucket is the unknown time exactly for a missing date; minute counts lie in 1..59, hour counts in 1..23, day counts in 2..6; the date bucket carries the date label |
| News.RelativeAgeBuckets | news.js:214-235 | exactly one bucket applies, stated on the elapsed milliseconds: unknown for a missing date; "just now" below one minute, future dates included; minutes below an hour; hours below a day; yesterday for one to two days; days for two to seven days; the date label from seven days on; each count is the whole number of units |
| News.FormatRelativeTime | news.js:214-235 | the text for each range of elapsed milliseconds: the unknown-time label without a date, "just now" below a minute, the whole minutes, hours or days with their unit below an hour, a day and seven days, "yesterday" for one to two days, and the date label from seven days on |
| News.FormatMeta | news.js:237-241 | the line is the source name, or the unknown-source label when it is empty, followed by " · " and the relative time |
| News.TopStories | news.js:245 | the top list is the first min(3, n) articles |
| News.LatestStories | news.js:279 | the top list followed by the latest list is the article list itself |
| News.CardOf | news.js:261-264 | the card's link and title are the article's own when present and never empty; the summary is of the description, or of the content when the description is missing; the meta line is formatMeta's |
| News.LatestItemOf | news.js:294-300 | the entry has the article's relative time, its card and its fallback flag |
| News.RenderTopStories | news.js:243-275 | the top panel shows its empty message exactly when there are no articles, and otherwise has one card per article among the first three, in order |
| News.RenderLatestStories | news.js:277-303 | the latest panel shows its empty message exactly when there are at most three articles, and otherwise has one entry per later article, in order |
| News.PanelsShowEveryArticle | news.js:243-303 | the two panels together show exactly as many entries as there are articles |
| News.MaxOrDefault | news.js:108 | the saved limit is never 0; it is the parsed number unless that is 0 or not a number, and then 10 |
| News.BuildUrl | news.js:145-161 | four parameters plus one for a keyword and one for a key, and no key set twice |
| News.BuildUrlSetsSettings | news.js:145-150 | category, lang, country and max always come from the settings |
| News.BuildUrlSetsOptionalParameters | news.js:152-158 | q is set exactly when there is a keyword and apikey exactly when there is a key |
| News.FetchedArticles | news.js:163-198 | the received list after a fetch that delivered one; the samples without a key or after any failure |
| News.MarkFallback | news.js:309-312 | the list keeps its length and every field of every article, except that the fallback flag becomes "there is no API key" |
| News.NewsBoard.constructor | news.js:60-71 | the initial state: the default settings, no articles, not loading, never updated |
| News.NewsBoard.SaveSettings | news.js:103-109 | the settings become the trimmed key, the three choices as given, and the defaulted limit |
| News.NewsBoard.BeginRefresh | news.js:163-171 | nothing happens while a request is in flight; without a key no request is made and the loading flag stays clear; otherwise the flag is raised and buildUrl's parameters are requested |
| News.NewsBoard.FinishRefresh | news.js:305-313 | after a request the loading flag is clear, the stored list is the fetched list (or the samples) marked by the current key, and the update time is recorded |

## Left out

- Drawing on the canvas, the DOM, the buttons and the status messages of both scripts: rendering side effects.
- `setInterval`/`clearInterval`: a tick is an explicit call of `Tick`, and the interval handle is not modelled.
- `localStorage`: the stored high score is a constructor argument. The string/number coercion of `getItem` is not modelled. `loadConfig`, `saveConfig` and `restoreForm` are not modelled.
- `updateClock`, `showStatus` and `initialize` of news.js: display and start-up plumbing.
- `fetch`, the HTTP status and the JSON checks of `fetchNews`: one `FetchResult` stands for a response that yielded a list (`Received`) or any failure (`Failed`).
- The `URL` class: `BuildUrl` yields the parameter list, not the URL text.
- Date parsing, `Date.now()` and `toLocaleDateString`: a date is a `Option<int>` of epoch milliseconds, `now` is a parameter and the date label is a function parameter.
- The images of the cards and the sample article data: the samples are a parameter.
- Snake.SnakeGame.GenerateFood: requires some draw to be off the body. On a full board the source loops for ever, and that is not modelled.
- The grid size comes from the canvas width, which the script does not fix; the model takes any size above 10, so that the starting body (x up to 10) lies on the board.
- News.SummaryIsLeadingPart: when the leading sentences are kept, the summary is stated through its non-space characters and its words; how many spaces separate two words is left to the definition `LeadingSentences`.
- String lengths count characters (code points), while JavaScript's `length` counts UTF-16 units; they differ only for characters outside the Basic Multilingual Plane.
- `maxSentences` is a natural number, and the number input of the save handler is modelled as an integer or "not a number" (`None`); fractional limits are not modelled.

## Notes on the source

- The direction rule compares a key with the stored heading, not with the last move made. So two turns between ticks (Up then Left while moving right) reverse the snake onto its neck. `Snake.TwoTurnsCanReverse` shows this. A single key never reverses the heading.
- `gameUpdate` checks only `isPaused`. A stopped game is never ticked because no timer runs then, so `Tick` models the check as written.
- The game's lifecycle is carried by the two flags `isGameRunning` and `isPaused`. A game that has ended and one that was never started are the same state, (false, false).
- `isFallback` is set from the API key alone, read when the response arrives. With a key, a failed fetch therefore shows the sample articles without the fallback marker.
- A sentence match after the first starts with the space that follows the previous terminator, and `join(' ')` adds one more. So a kept summary holds two spaces between sentences ("a.  b."), although the cleaned text is single-spaced.
