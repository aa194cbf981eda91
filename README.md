# Hobby sites: verified model of their deterministic cores

This project is a Dafny model of the logic inside a handful of small hobby sites. Everything around that logic is browser, Flask and network glue, which is not modelled. The modules are:

- **GrowthSimulator** (`growth_simulator.dfy`) models the market time machine's buy-and-hold portfolio stepper.
  - The `Simulator` class holds the page's state. Its fields are the loaded era data, `currentStep`, `portfolioClean`, the allocation, the interval timer, the chart's labels and values, and the event log.
  - `StartSimulation` rejects an allocation above 100%, and otherwise resets the run.
  - Each `Step` appends one chart point, computed by the closed-form valuation `PortfolioValue`. It then logs at most one event and advances the step.
  - The slider handler and the ticker filter are loops proved against specification functions.
- **EraCatalogue** (`era_catalogue.dfy`) models the server of the same app. It covers the timeline summaries, the lookup of an era by id, and the two routes that answer 404 for an unknown id.
- **MediaSite** (`media_site.dfy`) models the personal site's helpers:
  - YouTube id extraction from a link;
  - the channel-to-uploads playlist rewrite;
  - the twelve-hour music cache;
  - the photo-extension filter.
- **NewsScraping** (`news_scraper.dfy`) models the AI news bot's feed scraper. A `NewsScraper` keeps `seenEntries` across calls. `GetNews` walks feeds and entries in order, and skips entries it has seen or that are too old.
- **NewsDesk** (`news_desk.dfy`) models the bot's web side:
  - the subscriber list, with add-if-absent and remove-first-occurrence;
  - the thirty-minute news cache;
  - the scheduled job's rule for when to send.
- **ParkourBot** (`parkour_bot.dfy`) models the site's parkour bot:
  - the startup check;
  - the choice of the visible target nearest the 30% focus line;
  - the `isJumping` guard;
  - the landing geometry.

  `website/archive/parkour_bot/parkour_bot.js` holds the same code as lines 105-282 of `website/static/js/script.js`, line for line. Archive line *n* is line *n*+104 of `script.js`. So this one module models both files, and the table below cites `script.js`.
- **Text** (`text.dfy`) and **Wrappers** (`wrappers.dfy`) are shared helpers:
  - Python's `find`, `in`, `split(sep)[0]`/`[1]`, `startswith`, `endswith`, `replace(.., .., 1)`, `lower()`;
  - JavaScript's `includes` and `toUpperCase()`;
  - an `Option` type.

External inputs are parameters:
- the clock (`now`);
- the download of a feed (`Feed`);
- the YouTube playlist fetch (`Fetch`);
- element rectangles, scroll offset and viewport height;
- slider values;
- the subscriber file's contents.

Timers are explicit state. The simulator records the handle `setInterval` returned and the set of handles still active. The bot records the duration of the landing timeout in flight. The caller invokes `Step` and `Land` where the browser would fire the timer.

Three details of the code, modelled as written:
- `step` logs only the **first** event whose date matches the step (`events.find`). A later event on the same date is never logged.
- `startSimulation` clears the old interval, then logs "Started simulation...", and sets the new interval last. Nothing observable depends on this order.
- `updatePos` has a second branch, `else if (!currentTarget && bestTarget)`, that can never run. When `currentTarget` is null and a best target exists, that target already differs from null, so the first branch runs. The model leaves the branch out. `UpdatePos` is proved to jump exactly when the first branch's condition holds.

## Model

| member | source | states |
|---|---|---|
| `GrowthSimulator.SumFractions` | market_time_machine/static/js/chart_logic.js:80 | The `reduce` over the allocation's values returns the total fraction `FractionSum`. |
| `GrowthSimulator.ValueAt` | market_time_machine/static/js/chart_logic.js:113-134 | The `forEach` accumulation gives `PortfolioValue`. That is 10000 at step 0. At step k it is the sum over tickers of 10000·fraction·p[k]/p[0], plus the uninvested 10000·(1 − total fraction). |
| `GrowthSimulator.FlatPositions` | market_time_machine/static/js/chart_logic.js:122-129 | With every price at step k equal to its step-0 price, the positions are worth 10000 times the allocated fraction. |
| `GrowthSimulator.FlatPricesKeepCapital` | market_time_machine/static/js/chart_logic.js:122-133 | Flat prices leave the portfolio at exactly 10000 at any step, whatever the allocation. |
| `GrowthSimulator.OneTickerTenPercent` | market_time_machine/static/js/chart_logic.js:122-133 | An allocation of 100% to one ticker whose price goes from 100 to 110 is worth 11000 at step 1. |
| `GrowthSimulator.PositionsAtLeastCost` | market_time_machine/static/js/chart_logic.js:122-129 | When every allocated ticker has a positive start price, no allocated price has fallen below it, and every fraction is non-negative, the positions are worth at least what was invested in them. |
| `GrowthSimulator.NoLossKeepsCapital` | market_time_machine/static/js/chart_logic.js:122-133 | Under the same three conditions (positive start prices, no price below its start, non-negative fractions) the portfolio is worth at least the 10000 starting capital, which is the site's green state. |
| `GrowthSimulator.FirstIndex` | market_time_machine/static/js/chart_logic.js:147-148 | The first index whose key equals the given one, or none when no element has that key. |
| `GrowthSimulator.FirstEventOn` | market_time_machine/static/js/chart_logic.js:147-148 | `events.find` returns the first event dated on the timestamp, or none when no event has that date. |
| `GrowthSimulator.TickerIndex` | market_time_machine/static/js/chart_logic.js:67 | Returns the position of a ticker already in the allocation, or none. |
| `GrowthSimulator.FromSliders` | market_time_machine/static/js/chart_logic.js:60-69 | Slice i of the allocation is slider i's ticker with fraction percent/100, for every slider and nothing more. This is the allocation the slider handler builds when the tickers are distinct and the allocation starts empty (`AssignAllInPlace`). |
| `GrowthSimulator.FromSlidersSum` | market_time_machine/static/js/chart_logic.js:67-68 | The fractions written from the sliders add up to the displayed integer total divided by 100. |
| `GrowthSimulator.AssignAllInPlace` | market_time_machine/static/js/chart_logic.js:60-69 | Take distinct sliders whose tickers already key the first entries of the allocation, in the same order. Writing them all overwrites those entries in place. Keys come after them unchanged, and new keys are appended in slider order. |
| `GrowthSimulator.RejectsExactlyWhenTotalRed` | market_time_machine/static/js/chart_logic.js:72-81 | Once every slider has been written, `startSimulation`'s "exceeds 100%" check fires exactly when the total is displayed red (above 100). |
| `GrowthSimulator.FilterTickers` | market_time_machine/static/js/chart_logic.js:8-19 | Row i is shown iff its ticker contains the upper-cased query, and hidden otherwise. |
| `GrowthSimulator.QueryIgnoresCase` | market_time_machine/static/js/chart_logic.js:9 | Upper-casing makes the filter ignore the case of the query. |
| `GrowthSimulator.Simulator.constructor` | market_time_machine/static/js/chart_logic.js:1-6 | Starts with no data, step 0, 10000 clean capital, an empty allocation, an empty chart, an empty log and no timer running. |
| `GrowthSimulator.Simulator.Init` | market_time_machine/static/js/chart_logic.js:21-54 | Stores the fetched era data and creates an empty chart. Everything else is unchanged. |
| `GrowthSimulator.Simulator.Log` | market_time_machine/static/js/chart_logic.js:156-162 | Puts "> " + msg on top of the log, so the log reads newest first. |
| `GrowthSimulator.Simulator.UpdateAllocation` | market_time_machine/static/js/chart_logic.js:56-74 | Writes each slider's percent/100 under its ticker, returns the integer total, and flags it red iff it exceeds 100. |
| `GrowthSimulator.Simulator.StartSimulation` | market_time_machine/static/js/chart_logic.js:76-100 | Without data it does nothing. With total fraction > 1.0 it only logs the error, and chart, step, capital and timer are untouched. Otherwise it empties the chart, sets step 0 and capital 10000, cancels the old timer, logs "Started simulation..." and leaves exactly one timer active. The chart-equals-timestamp-prefix invariant is kept. |
| `GrowthSimulator.Simulator.Step` | market_time_machine/static/js/chart_logic.js:102-154 | It is called only while its interval timer is active. Past the last timestamp it stops the timer, logs completion and appends nothing. Otherwise it appends `timestamps[step]` and `PortfolioValue` at that step, and logs the first event of that date if any. It then advances the step by one, so labels stay equal to the timestamp prefix. |
| `EraCatalogue.GetScenarios` | market_time_machine/app.py:31-42 | One summary per era, same length and order, with id, name, year_start, year_end and description copied. |
| `EraCatalogue.GetEraData` | market_time_machine/app.py:44-48 | Returns none iff no era has the id. Otherwise it returns the first era with that id. |
| `EraCatalogue.Simulate` | market_time_machine/app.py:62-68 | Answers 404 iff no era has the id. Otherwise it renders the first era with that id, the one `get_era_data` returns. |
| `EraCatalogue.GetData` | market_time_machine/app.py:70-76 | Answers 404 iff no era has the id. Otherwise it returns the first era with that id, the one `get_era_data` returns, as JSON. |
| `EraCatalogue.TimelineLinksResolve` | market_time_machine/app.py:59-76 | Every era listed on the timeline opens with status 200 on both routes. |
| `EraCatalogue.SummaryRoundTrip` | market_time_machine/app.py:31-48 | With distinct ids, looking up a summary's id gives back the era it summarises, and summarising that era gives back the summary. |
| `MediaSite.GetVideoId` | website/app.py:84-93 | The result is a piece of the url. For a `youtu.be/` link it is the start of the text after the first `youtu.be/`. It ends at the end of that text, at its first "?" or at its first `youtu.be/`, whichever comes first: neither starts earlier in that text. Otherwise a `v=` link is cut the same way after its first `v=`, at the first "&" or `v=` after it. With neither pattern the url comes back unchanged. |
| `MediaSite.CutPoint` | website/app.py:88-91 | `split(sep)[1].split(stop)[0]` is a prefix of the text after the first separator. It runs to that text's end or stops just before a separator or a stop pattern. No separator, and no one-character stop, starts earlier in that text. |
| `MediaSite.WatchLinkRoundTrip` | website/app.py:90-91 | The id is read back from `https://www.youtube.com/watch?v=<id>` for any id of letters, digits, `-` and `_`. |
| `MediaSite.ShortLinkRoundTrip` | website/app.py:87-88 | The id is read back from `youtu.be/<id>` for any such id. |
| `MediaSite.PlaylistId` | website/app.py:38-41 | An id starting with "UC" becomes "UU" + the same suffix; any other id is kept. The length is preserved. |
| `MediaSite.PlaylistIdIdempotent` | website/app.py:38-41 | Rewriting an already rewritten id changes nothing. |
| `MediaSite.WatchUrls` | website/app.py:54 | One watch URL per playlist entry. |
| `MediaSite.CachedSongsRoundTrip` | website/app.py:54 | When every entry id is a YouTube id (letters, digits, `-` and `_`), every cached watch URL gives back its entry id when run through `GetVideoId`. |
| `MediaSite.MusicCache.constructor` | website/app.py:18-21 | The cache starts with no data and update time 0. |
| `MediaSite.MusicCache.GetLatestSongs` | website/app.py:24-63 | Without a channel id it returns [] and does not touch the cache. A non-empty cache younger than 43200 s is returned unchanged. Otherwise it requests the rewritten playlist. Entries overwrite the data and the time. A reply without entries gives []. A failure returns the old data. |
| `MediaSite.GetPhotos` | website/app.py:71 | A file is kept iff its lower-cased name ends in .png, .jpg, .jpeg, .gif or .webp. |
| `MediaSite.GetPhotosAppend` | website/app.py:71 | The filter works file by file: filtering a concatenation is concatenating the filtered parts, so listing order is preserved. |
| `MediaSite.GetPhotosIdempotent` | website/app.py:71 | Filtering twice is filtering once. |
| `MediaSite.UpperCaseExtension` | website/app.py:71 | "HOLIDAY.JPG" is kept and "notes.txt" is dropped. |
| `NewsScraping.NewsScraper.constructor` | ai_news_bot/scraper.py:6-15 | The six default feeds and an empty seen set. |
| `NewsScraping.NewsScraper.GetNews` | ai_news_bot/scraper.py:17-57 | The loops compute `ScanFeeds`: the returned items and the new seen set are what the feed-by-feed, entry-by-entry scan gives from the old seen set. |
| `NewsScraping.RaisedSticks` | ai_news_bot/scraper.py:30-55 | Once an entry raises, the rest of that feed changes nothing. |
| `NewsScraping.FeedsExtend` | ai_news_bot/scraper.py:29-53 | The seen set only grows and items are only appended. |
| `NewsScraping.FeedOrder` | ai_news_bot/scraper.py:29-47 | The items from the first k feeds are a prefix of the whole result: output follows feed order. |
| `NewsScraping.FeedsFresh` | ai_news_bot/scraper.py:36-47 | Every returned link is new relative to the seen set before the call, and no two items of one call share a link. |
| `NewsScraping.FeedsOrigin` | ai_news_bot/scraper.py:34-53 | Every item is built from an entry of a feed that parsed and is not older than the lookback window. Missing summary, date and source get their defaults. |
| `NewsScraping.EntryKept` | ai_news_bot/scraper.py:30-53 | An entry reached before the feed raised, with a link and a title, unseen so far and not older than the window becomes an item. An entry without a publish time is never filtered by age. |
| `NewsScraping.FeedEntryKept` | ai_news_bot/scraper.py:29-55 | Completeness of a call: such an entry of any parsed feed is among the returned items, even when an earlier feed raised. A raising feed does not stop the later feeds. |
| `NewsScraping.EntriesSeen` | ai_news_bot/scraper.py:36-46 | After one feed, a link is seen iff it was seen before or belongs to an entry that was reached before the feed raised and passed the age filter. A stale entry adds no link of its own. |
| `NewsScraping.FeedsSeen` | ai_news_bot/scraper.py:29-55 | After a call, `seen_entries` is exactly the old set plus the links of the admitted entries of all parsed feeds. |
| `NewsScraping.TwoCalls` | ai_news_bot/scraper.py:36-46 | Two calls on one scraper never return the same link twice. |
| `NewsDesk.RemoveAbsent` | ai_news_bot/app.py:77 | Removing an address that is not subscribed leaves the list unchanged. |
| `NewsDesk.RemoveCut` | ai_news_bot/app.py:78 | `remove` cuts out exactly the first occurrence. |
| `NewsDesk.RemoveMultiset` | ai_news_bot/app.py:78 | `remove` takes away one copy of the address and keeps everything else. |
| `NewsDesk.SubscriberStore.constructor` | ai_news_bot/app.py:13-20 | The list starts as the subscriber file's contents. |
| `NewsDesk.SubscriberStore.AddSubscriber` | ai_news_bot/app.py:59-71 | A missing or empty email gives 400 "Email is required" and leaves the list unchanged. A new address is appended at the end, and a known one changes nothing. The resulting list is returned, and a list without duplicates stays without duplicates. |
| `NewsDesk.SubscriberStore.RemoveSubscriber` | ai_news_bot/app.py:73-81 | The first occurrence is removed and the resulting list is returned. A null email changes nothing. |
| `NewsDesk.AddThenRemove` | ai_news_bot/app.py:66-80 | Subscribing a new address and then unsubscribing it restores the list. |
| `NewsDesk.RemovePreservesNoDuplicates` | ai_news_bot/app.py:77-80 | On a list without duplicates, removal keeps it so and leaves no copy of the address. |
| `NewsDesk.ScrapeIsFresh` | ai_news_bot/app.py:93-94 | A scrape by the new scraper never repeats a link, and returns only entries of the last 24 hours. |
| `NewsDesk.NewsCache.constructor` | ai_news_bot/app.py:84-87 | The cache starts with no data and update time 0. |
| `NewsDesk.NewsCache.UpdateCache` | ai_news_bot/app.py:90-99 | A new scraper looks back 24 hours. A non-empty result replaces the data and sets the update time to the clock read after the scrape. An empty result leaves data and time as they were. The result is returned either way. |
| `NewsDesk.NewsCache.GetCachedNews` | ai_news_bot/app.py:101-109 | It refreshes iff the cache is empty or older than 1800 s (strictly), and then the cache changes as in `UpdateCache`. Otherwise it returns the cache untouched. A non-empty cache never becomes empty. |
| `NewsDesk.NewsCache.RunJob` | ai_news_bot/app.py:26-39 | A digest goes out iff the refreshed news and the subscriber list are both non-empty. It carries exactly those articles and recipients. The cache changes as in `UpdateCache`. |
| `NewsDesk.ServedFromCache` | ai_news_bot/app.py:90-109 | Within 1800 s of a successful refresh, the news API serves the same articles, whatever the feeds say now. |
| `ParkourBot.Startup` | website/static/js/script.js:106-116 | A bot runs iff the bot element exists, the window is at least 900 px wide and it was not dismissed. It is then a new bot, not jumping, in the perch state `initBot` gives. |
| `ParkourBot.NearestSpec` | website/static/js/script.js:179-194 | The scan finds a target iff one is visible. The one it finds is visible and minimises the distance to the 30% focus line. Every visible target before it is strictly farther, so the earliest wins ties. |
| `ParkourBot.BestTarget` | website/static/js/script.js:180-194 | The `minDistance`/`bestTarget` loop returns the same index as `Nearest`. |
| `ParkourBot.Landing` | website/static/js/script.js:213-242 | Landing geometry:<br>• Top: flush with the target, 35 px above its page top.<br>• Left edge: +20 when approaching from left of centre or onto a heading, otherwise right edge −50.<br>• Falling iff more than 100 px below the start, with duration 800 falling and 700 otherwise.<br>• Faces left iff it moves left. |
| `ParkourBot.LandsOnTarget` | website/static/js/script.js:217-227 | On a target at least 50 px wide the bot lands within it. On a non-heading at least 100 px wide it lands on the half it came from. |
| `ParkourBot.Bot.constructor` | website/static/js/script.js:118-281 | Not jumping. With a heading it perches 35 px above the heading's top and 20 px in, sitting, with the heading as current target. |
| `ParkourBot.Bot.JumpTo` | website/static/js/script.js:203-242 | While jumping it changes nothing. Otherwise it starts the jump: it records the target and moves to `Landing`'s end point, facing and pose, with the landing timeout scheduled. |
| `ParkourBot.Bot.Land` | website/static/js/script.js:244-247 | The landing timeout sits the bot down and ends the jump. The position and target are unchanged. |
| `ParkourBot.Bot.UpdatePos` | website/static/js/script.js:172-201 | It jumps iff it is not already jumping and the nearest visible target exists and differs from the current one. It then moves to that target's `Landing` point, with its facing and pose, and schedules the landing timeout with the jump's duration. Otherwise nothing changes. |
| `ParkourBot.PerchIsLanding` | website/static/js/script.js:274-281 | The initial perch on the heading is where a jump onto it lands when the page is not scrolled. |
| `ParkourBot.SettledBotStays` | website/static/js/script.js:196-200 | After the bot has jumped to the nearest target and landed, the next scan of the same layout does not move it. |
| `Text.IndexOf` | website/app.py:87-91 | Python's `find`: the first index where the pattern occurs, or none when it occurs nowhere. |
| `Text.Before` | website/app.py:88-91 | `split(sep)[0]`: the whole string when the separator does not occur. Otherwise the prefix up to the first occurrence, which itself holds no separator. |
| `Text.After` | website/app.py:88-91 | The suffix after the first occurrence of the separator. The separator occurs just before it and nowhere earlier. |
| `Text.SecondField` | website/app.py:88-91 | `split(sep)[1]`: the start of the text after the first separator, up to its end or the first separator in it (none starts earlier), and holding no separator. |
| `Text.ReplaceFirst` | website/app.py:39 | `replace(pat, repl, 1)`: without the pattern the string is unchanged. Otherwise the first occurrence is replaced and the rest is kept. |
| `Text.Lower` | website/app.py:71 | `lower()` on ASCII, character by character. |
| `Text.Upper` | market_time_machine/static/js/chart_logic.js:9 | `toUpperCase()` on ASCII, character by character. |

## Left out

- Prices, fractions and coordinates are JavaScript doubles and Python floats in the source. The model uses exact `real` arithmetic, so rounding is not reproduced, e.g. a float total of 0.1 + 0.2 + 0.7 compared with 1.0.
- The source does not guard against a missing ticker, a short price series or a zero start price in `step`. These are preconditions of `Step` (`PricesCover`).
- `GrowthSimulator.Simulator.UpdateAllocation`: object keys are kept in insertion order. JavaScript would list integer-like keys first, and tickers never look like integers.
- The rest of the page is not modelled:
  - Chart.js drawing and `chart.update()`;
  - the green/red value class and `toLocaleString`;
  - the `fetch` in `init`, which is modelled only as `Init` receiving the parsed data;
  - the 500 ms timer period. `Step` is called directly.
- `Text.Lower`, `Text.Upper`: only ASCII letters change case. Python and JavaScript also map other Unicode letters.
- `ai_news_bot/mailer.py` is not part of this model: SMTP, MIME and the HTML template. `RunJob` returns the digest it would send.
- The scheduler loops, background threads, the `/api/refresh-cache` and `/api/run-now` routes, and the `/api/news` 500 handler are not modelled. They are concurrency and error plumbing around the modelled calls.
- The subscriber file is the `subscribers` field, and an unreadable file reads as an empty list in the source. A request without a JSON body raises in the source before reaching the modelled logic. A non-string email is not modelled.
- `NewsDesk.NewsCache.UpdateCache`: `get_news` reads `datetime.now()` once per entry. The model reads the clock once, as `now`, for the whole scrape. `time.time()` after the scrape is the separate `fetchedAt`.
- `feedparser.parse`, `yt_dlp`, `time.time()`, `datetime.now()`, `os.listdir` and `os.makedirs` are parameters or left out. The publish time is given in seconds, as `time.mktime` would give it.
- An entry lacking `link` or `title` raises in the source and ends that feed's loop. The model makes this explicit with `Option` fields.
- The `playlistend` option of `yt_dlp` is the fetcher's business, and `Fetch` carries whatever entries it returned.
- For the bot, these are left out:
  - the idle loop, the click-to-wave handler, the random quirks after landing, and the dismiss button with its `localStorage` write (timers, randomness and browser storage);
  - the 300 ms scan period, since `UpdatePos` is called directly;
  - `parseFloat(bot.style.left) || 0`, since the model keeps the position as numbers that start at 0.
- The home, index and page-rendering routes are not modelled: templates only. So are `get_videos`, `mba_portfolio/` and `side_projects/`: UI glue and foreign APIs.
