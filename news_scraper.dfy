/**
 * The AI news bot's feed scraper. A scraper keeps the set of links it has
 * already returned; each `get_news` call walks the configured feeds in order
 * and their entries in order, skips links already seen and entries published
 * longer ago than the lookback window, and turns the rest into news items
 * with default fields. The feed download (`feedparser.parse`) and the clock
 * are parameters: one parse result per configured feed, and `now` in seconds.
 */
module NewsScraping {
  import opened Wrappers

  /**
   * One feed entry. Fields are None when the entry lacks the attribute;
   * `publishedAt` is `published_parsed` converted to seconds.
   */
  datatype Entry = Entry(
    link: Option<string>,
    title: Option<string>,
    summary: Option<string>,
    published: Option<string>,
    publishedAt: Option<real>)

  /** What parsing one feed gave: its channel title and entries, or an exception. */
  datatype Feed = Parsed(title: Option<string>, entries: seq<Entry>) | Raised

  datatype NewsItem = NewsItem(title: string, link: string, summary: string, source: string, published: string)

  const DefaultFeeds: seq<string> := [
    "https://openai.com/blog/rss.xml",
    "https://blog.google/technology/ai/rss/",
    "https://aws.amazon.com/blogs/machine-learning/feed/",
    "https://techcrunch.com/category/artificial-intelligence/feed/",
    "https://www.theverge.com/rss/artificial-intelligence/index.xml",
    "https://news.mit.edu/rss/topic/artificial-intelligence2"
  ]

  const NoSummary: string := "No summary available."
  const UnknownDate: string := "Unknown date"

  /** The entry passes the lookback filter: no publish time, or at most `lookbackHours` old. */
  predicate Recent(e: Entry, now: real, lookbackHours: int)
  {
    e.publishedAt.None? || !(now - e.publishedAt.value > lookbackHours as real * 3600.0)
  }

  /** `feed.feed.get('title', url)` */
  function SourceOf(title: Option<string>, url: string): string
  {
    if title.Some? then title.value else url
  }

  /** The dictionary appended for an accepted entry, with the defaults for missing fields. */
  function MakeItem(e: Entry, source: string): NewsItem
    requires e.link.Some? && e.title.Some?
  {
    NewsItem(
      e.title.value,
      e.link.value,
      if e.summary.Some? then e.summary.value else NoSummary,
      source,
      if e.published.Some? then e.published.value else UnknownDate)
  }

  /** The items found so far in a call and the scraper's `seen_entries`. */
  datatype Harvest = Harvest(items: seq<NewsItem>, seen: set<string>)

  /** A harvest, and whether the current feed raised and its remaining entries are skipped. */
  datatype Progress = Progress(harvest: Harvest, raised: bool)

  /** One pass of the inner loop body. */
  function EntryStep(h: Harvest, e: Entry, source: string, now: real, lookbackHours: int): Progress
  {
    if e.link.None? then Progress(h, true)                   // `entry.link` raises
    else if e.link.value in h.seen then Progress(h, false)   // already seen
    else if !Recent(e, now, lookbackHours) then Progress(h, false)
    else
      var seen := h.seen + {e.link.value};
      if e.title.None? then Progress(Harvest(h.items, seen), true)   // `entry.title` raises after the add
      else Progress(Harvest(h.items + [MakeItem(e, source)], seen), false)
  }

  /** The inner loop over one feed's entries; an exception ends the feed. */
  function ScanEntries(h: Harvest, es: seq<Entry>, source: string, now: real, lookbackHours: int): Progress
  {
    if es == [] then Progress(h, false)
    else
      var p := ScanEntries(h, es[..|es| - 1], source, now, lookbackHours);
      if p.raised then p else EntryStep(p.harvest, es[|es| - 1], source, now, lookbackHours)
  }

  /** One pass of the outer loop: a feed that raised contributes nothing more. */
  function FeedStep(h: Harvest, url: string, feed: Feed, now: real, lookbackHours: int): Harvest
  {
    match feed
    case Raised => h
    case Parsed(title, es) => ScanEntries(h, es, SourceOf(title, url), now, lookbackHours).harvest
  }

  /** The outer loop over the feeds, in order. */
  function ScanFeeds(h: Harvest, urls: seq<string>, feeds: seq<Feed>, now: real, lookbackHours: int): Harvest
    requires |urls| == |feeds|
  {
    if feeds == [] then h
    else
      var n := |feeds| - 1;
      FeedStep(ScanFeeds(h, urls[..n], feeds[..n], now, lookbackHours), urls[n], feeds[n], now, lookbackHours)
  }

  /** Once a feed has raised, the later entries change nothing. */
  lemma {:induction false} RaisedSticks(h: Harvest, es: seq<Entry>, k: nat, source: string, now: real, lookbackHours: int)
    requires k <= |es| && ScanEntries(h, es[..k], source, now, lookbackHours).raised
    ensures ScanEntries(h, es, source, now, lookbackHours) == ScanEntries(h, es[..k], source, now, lookbackHours)
    decreases |es|
  {
    if k < |es| {
      var n := |es| - 1;
      assert es[..n][..k] == es[..k];
      RaisedSticks(h, es[..n], k, source, now, lookbackHours);
    } else {
      assert es[..k] == es;
    }
  }

  class NewsScraper {
    const feeds: seq<string>
    var seenEntries: set<string>

    constructor ()
      ensures feeds == DefaultFeeds && seenEntries == {}
    {
      feeds := DefaultFeeds;
      seenEntries := {};
    }

    /** `get_news`: `parsed[i]` is what parsing `feeds[i]` gave. */
    method GetNews(parsed: seq<Feed>, lookbackHours: int, now: real) returns (newsItems: seq<NewsItem>)
      requires |parsed| == |feeds|
      modifies this
      ensures Harvest(newsItems, seenEntries) == ScanFeeds(Harvest([], old(seenEntries)), feeds, parsed, now, lookbackHours)
    {
      newsItems := [];
      ghost var start := Harvest([], seenEntries);
      var i := 0;
      while i < |feeds|
        invariant 0 <= i <= |feeds|
        invariant Harvest(newsItems, seenEntries) == ScanFeeds(start, feeds[..i], parsed[..i], now, lookbackHours)
      {
        assert feeds[..i + 1][..i] == feeds[..i] && parsed[..i + 1][..i] == parsed[..i];
        var url := feeds[i];
        match parsed[i] {
          case Raised =>
          case Parsed(title, entries) =>
            ghost var before := Harvest(newsItems, seenEntries);
            var source := SourceOf(title, url);
            var j := 0;
            var raised := false;
            while j < |entries| && !raised
              invariant 0 <= j <= |entries|
              invariant Progress(Harvest(newsItems, seenEntries), raised)
                        == ScanEntries(before, entries[..j], source, now, lookbackHours)
            {
              assert entries[..j + 1][..j] == entries[..j];
              var entry := entries[j];
              if entry.link.None? {
                raised := true;
              } else if entry.link.value in seenEntries {
              } else if entry.publishedAt.Some? && now - entry.publishedAt.value > lookbackHours as real * 3600.0 {
              } else {
                seenEntries := seenEntries + {entry.link.value};
                if entry.title.None? {
                  raised := true;
                } else {
                  newsItems := newsItems + [MakeItem(entry, source)];
                }
              }
              j := j + 1;
            }
            if raised {
              RaisedSticks(before, entries, j, source, now, lookbackHours);
            } else {
              assert entries[..j] == entries;
            }
        }
        i := i + 1;
      }
      assert feeds[..i] == feeds && parsed[..i] == parsed;
    }
  }

  // ---------------------------------------------------------------------------
  // Properties
  // ---------------------------------------------------------------------------

  /** `later` extends `earlier`: items only appended, links only added. */
  predicate Extends(earlier: Harvest, later: Harvest)
  {
    earlier.items <= later.items && earlier.seen <= later.seen
  }

  lemma {:induction false} EntriesExtend(h: Harvest, es: seq<Entry>, source: string, now: real, lookbackHours: int)
    ensures Extends(h, ScanEntries(h, es, source, now, lookbackHours).harvest)
  {
    if es != [] {
      EntriesExtend(h, es[..|es| - 1], source, now, lookbackHours);
    }
  }

  lemma FeedStepExtends(h: Harvest, url: string, feed: Feed, now: real, lookbackHours: int)
    ensures Extends(h, FeedStep(h, url, feed, now, lookbackHours))
  {
    if feed.Parsed? {
      EntriesExtend(h, feed.entries, SourceOf(feed.title, url), now, lookbackHours);
    }
  }

  /** `seen_entries` only grows, and items are only ever appended: output follows feed order. */
  lemma {:induction false} FeedsExtend(h: Harvest, urls: seq<string>, feeds: seq<Feed>, now: real, lookbackHours: int)
    requires |urls| == |feeds|
    ensures Extends(h, ScanFeeds(h, urls, feeds, now, lookbackHours))
  {
    if feeds != [] {
      var n := |feeds| - 1;
      FeedsExtend(h, urls[..n], feeds[..n], now, lookbackHours);
      FeedStepExtends(ScanFeeds(h, urls[..n], feeds[..n], now, lookbackHours), urls[n], feeds[n], now, lookbackHours);
    }
  }

  /** The items of the first k feeds come first, in the same order. */
  lemma {:induction false} FeedOrder(h: Harvest, urls: seq<string>, feeds: seq<Feed>, k: nat, now: real, lookbackHours: int)
    requires |urls| == |feeds| && k <= |feeds|
    ensures ScanFeeds(h, urls[..k], feeds[..k], now, lookbackHours).items <= ScanFeeds(h, urls, feeds, now, lookbackHours).items
    decreases |feeds|
  {
    if k < |feeds| {
      var n := |feeds| - 1;
      assert urls[..n][..k] == urls[..k] && feeds[..n][..k] == feeds[..k];
      FeedOrder(h, urls[..n], feeds[..n], k, now, lookbackHours);
      FeedStepExtends(ScanFeeds(h, urls[..n], feeds[..n], now, lookbackHours), urls[n], feeds[n], now, lookbackHours);
    } else {
      assert urls[..k] == urls && feeds[..k] == feeds;
    }
  }

  /**
   * The links of `items` are pairwise distinct, all in `seen` and none in
   * `before`: every item is new relative to what was seen before the call.
   */
  predicate Fresh(items: seq<NewsItem>, before: set<string>, seen: set<string>)
  {
    && (forall i :: 0 <= i < |items| ==> items[i].link in seen && items[i].link !in before)
    && (forall i, j :: 0 <= i < j < |items| ==> items[i].link != items[j].link)
  }

  lemma {:induction false} EntriesFresh(h: Harvest, es: seq<Entry>, before: set<string>, source: string, now: real, lookbackHours: int)
    requires before <= h.seen && Fresh(h.items, before, h.seen)
    ensures var r := ScanEntries(h, es, source, now, lookbackHours).harvest;
      before <= r.seen && Fresh(r.items, before, r.seen)
  {
    if es != [] {
      EntriesFresh(h, es[..|es| - 1], before, source, now, lookbackHours);
    }
  }

  /** No two items of one call share a link, and none was returned by an earlier call on the same scraper. */
  lemma {:induction false} FeedsFresh(h: Harvest, urls: seq<string>, feeds: seq<Feed>, before: set<string>, now: real, lookbackHours: int)
    requires |urls| == |feeds|
    requires before <= h.seen && Fresh(h.items, before, h.seen)
    ensures var r := ScanFeeds(h, urls, feeds, now, lookbackHours);
      before <= r.seen && Fresh(r.items, before, r.seen)
  {
    if feeds != [] {
      var n := |feeds| - 1;
      FeedsFresh(h, urls[..n], feeds[..n], before, now, lookbackHours);
      var mid := ScanFeeds(h, urls[..n], feeds[..n], now, lookbackHours);
      if feeds[n].Parsed? {
        EntriesFresh(mid, feeds[n].entries, before, SourceOf(feeds[n].title, urls[n]), now, lookbackHours);
      }
    }
  }

  /** Each item was built, with the defaults, from an entry of the list that passes the lookback filter. */
  predicate FromEntries(item: NewsItem, es: seq<Entry>, source: string, now: real, lookbackHours: int)
  {
    exists k :: 0 <= k < |es| && es[k].link.Some? && es[k].title.Some?
      && Recent(es[k], now, lookbackHours) && item == MakeItem(es[k], source)
  }

  lemma {:induction false} EntriesOrigin(h: Harvest, es: seq<Entry>, source: string, now: real, lookbackHours: int)
    ensures var r := ScanEntries(h, es, source, now, lookbackHours).harvest;
      |h.items| <= |r.items|
      && forall i :: |h.items| <= i < |r.items| ==> FromEntries(r.items[i], es, source, now, lookbackHours)
  {
    if es != [] {
      var n := |es| - 1;
      EntriesOrigin(h, es[..n], source, now, lookbackHours);
      var p := ScanEntries(h, es[..n], source, now, lookbackHours);
      var r := ScanEntries(h, es, source, now, lookbackHours).harvest;
      forall i | |h.items| <= i < |r.items|
        ensures FromEntries(r.items[i], es, source, now, lookbackHours)
      {
        if i < |p.harvest.items| {
          var k :| 0 <= k < n && es[..n][k].link.Some? && es[..n][k].title.Some?
            && Recent(es[..n][k], now, lookbackHours) && p.harvest.items[i] == MakeItem(es[..n][k], source);
          assert es[k] == es[..n][k];
        } else {
          assert r.items[i] == MakeItem(es[n], source);
        }
      }
    }
  }

  /** The item comes from a recent entry of this parsed feed, with the feed's source. */
  predicate FromFeed(item: NewsItem, url: string, feed: Feed, now: real, lookbackHours: int)
  {
    feed.Parsed? && FromEntries(item, feed.entries, SourceOf(feed.title, url), now, lookbackHours)
  }

  /** Every item comes from a recent entry of some parsed feed, with that feed's source. */
  predicate FromFeeds(item: NewsItem, urls: seq<string>, feeds: seq<Feed>, now: real, lookbackHours: int)
    requires |urls| == |feeds|
  {
    exists f :: 0 <= f < |feeds| && FromFeed(item, urls[f], feeds[f], now, lookbackHours)
  }

  /** An item from one of the first n feeds is an item from the feeds. */
  lemma FromFeedsPrefix(item: NewsItem, urls: seq<string>, feeds: seq<Feed>, n: nat, now: real, lookbackHours: int)
    requires |urls| == |feeds| && n <= |feeds|
    requires FromFeeds(item, urls[..n], feeds[..n], now, lookbackHours)
    ensures FromFeeds(item, urls, feeds, now, lookbackHours)
  {
    var f :| 0 <= f < n && FromFeed(item, urls[..n][f], feeds[..n][f], now, lookbackHours);
    assert urls[..n][f] == urls[f] && feeds[..n][f] == feeds[f];
    assert FromFeed(item, urls[f], feeds[f], now, lookbackHours);
  }

  lemma {:induction false} FeedsOrigin(h: Harvest, urls: seq<string>, feeds: seq<Feed>, now: real, lookbackHours: int)
    requires |urls| == |feeds|
    ensures var r := ScanFeeds(h, urls, feeds, now, lookbackHours);
      |h.items| <= |r.items|
      && forall i :: |h.items| <= i < |r.items| ==> FromFeeds(r.items[i], urls, feeds, now, lookbackHours)
  {
    if feeds != [] {
      var n := |feeds| - 1;
      FeedsOrigin(h, urls[..n], feeds[..n], now, lookbackHours);
      var mid := ScanFeeds(h, urls[..n], feeds[..n], now, lookbackHours);
      var r := ScanFeeds(h, urls, feeds, now, lookbackHours);
      FeedStepExtends(mid, urls[n], feeds[n], now, lookbackHours);
      if feeds[n].Parsed? {
        EntriesOrigin(mid, feeds[n].entries, SourceOf(feeds[n].title, urls[n]), now, lookbackHours);
      }
      forall i | |h.items| <= i < |r.items|
        ensures FromFeeds(r.items[i], urls, feeds, now, lookbackHours)
      {
        if i < |mid.items| {
          assert r.items[i] == mid.items[i];
          FromFeedsPrefix(r.items[i], urls, feeds, n, now, lookbackHours);
        } else {
          assert FromFeed(r.items[i], urls[n], feeds[n], now, lookbackHours);
        }
      }
    }
  }

  /** The harvest after the first k entries is extended by the rest of the feed. */
  lemma {:induction false} EntriesPrefix(h: Harvest, es: seq<Entry>, k: nat, source: string, now: real, lookbackHours: int)
    requires k <= |es|
    ensures Extends(ScanEntries(h, es[..k], source, now, lookbackHours).harvest, ScanEntries(h, es, source, now, lookbackHours).harvest)
    decreases |es|
  {
    if k < |es| {
      var n := |es| - 1;
      assert es[..n][..k] == es[..k];
      EntriesPrefix(h, es[..n], k, source, now, lookbackHours);
    } else {
      assert es[..k] == es;
    }
  }

  /**
   * Entry k is reached before the feed raised, has a link and a title, is not
   * older than the window (an entry without a publish time always passes) and
   * its link was not seen yet.
   */
  predicate Kept(h: Harvest, es: seq<Entry>, k: int, source: string, now: real, lookbackHours: int)
  {
    && 0 <= k < |es|
    && !ScanEntries(h, es[..k], source, now, lookbackHours).raised
    && es[k].link.Some? && es[k].title.Some?
    && (es[k].publishedAt.None? || now - es[k].publishedAt.value <= lookbackHours as real * 3600.0)
    && es[k].link.value !in ScanEntries(h, es[..k], source, now, lookbackHours).harvest.seen
  }

  /** A kept entry becomes an item of the harvest. */
  lemma EntryKept(h: Harvest, es: seq<Entry>, k: int, source: string, now: real, lookbackHours: int)
    requires Kept(h, es, k, source, now, lookbackHours)
    ensures MakeItem(es[k], source) in ScanEntries(h, es, source, now, lookbackHours).harvest.items
  {
    assert es[..k + 1][..k] == es[..k];
    var p := ScanEntries(h, es[..k + 1], source, now, lookbackHours);
    assert p.harvest.items == ScanEntries(h, es[..k], source, now, lookbackHours).harvest.items + [MakeItem(es[k], source)];
    EntriesPrefix(h, es, k + 1, source, now, lookbackHours);
  }

  /** Entry k was reached before the feed raised, has a link and passes the lookback filter. */
  predicate Admits(h: Harvest, es: seq<Entry>, k: int, source: string, now: real, lookbackHours: int)
  {
    && 0 <= k < |es|
    && !ScanEntries(h, es[..k], source, now, lookbackHours).raised
    && es[k].link.Some?
    && Recent(es[k], now, lookbackHours)
  }

  /** Admission of entry k depends only on the entries up to k. */
  lemma AdmitsPrefix(h: Harvest, es: seq<Entry>, n: nat, k: int, source: string, now: real, lookbackHours: int)
    requires 0 <= k < n <= |es|
    ensures Admits(h, es[..n], k, source, now, lookbackHours) <==> Admits(h, es, k, source, now, lookbackHours)
  {
    assert es[..n][..k] == es[..k] && es[..n][k] == es[k];
  }

  /** The link of an admitted entry is seen after the feed. */
  lemma AdmittedIsSeen(h: Harvest, es: seq<Entry>, k: int, source: string, now: real, lookbackHours: int)
    requires Admits(h, es, k, source, now, lookbackHours)
    ensures es[k].link.value in ScanEntries(h, es, source, now, lookbackHours).harvest.seen
  {
    assert es[..k + 1][..k] == es[..k];
    assert es[k].link.value in ScanEntries(h, es[..k + 1], source, now, lookbackHours).harvest.seen;
    EntriesPrefix(h, es, k + 1, source, now, lookbackHours);
  }

  /** A link seen after the feed and not before comes from an admitted entry. */
  lemma {:induction false} SeenIsAdmitted(h: Harvest, es: seq<Entry>, x: string, source: string, now: real, lookbackHours: int)
    requires x in ScanEntries(h, es, source, now, lookbackHours).harvest.seen && x !in h.seen
    ensures exists k :: Admits(h, es, k, source, now, lookbackHours) && es[k].link.value == x
  {
    var n := |es| - 1;
    var p := ScanEntries(h, es[..n], source, now, lookbackHours);
    if x in p.harvest.seen {
      SeenIsAdmitted(h, es[..n], x, source, now, lookbackHours);
      var k :| Admits(h, es[..n], k, source, now, lookbackHours) && es[..n][k].link.value == x;
      AdmitsPrefix(h, es, n, k, source, now, lookbackHours);
      assert es[..n][k] == es[k];
    } else {
      assert es[..n] == es[..n];
      assert Admits(h, es, n, source, now, lookbackHours);
    }
  }

  /**
   * The links seen after a feed are those seen before plus the links of the
   * entries that passed both filters, and nothing else: a stale entry or one
   * after the feed raised adds no link.
   */
  lemma EntriesSeen(h: Harvest, es: seq<Entry>, x: string, source: string, now: real, lookbackHours: int)
    ensures x in ScanEntries(h, es, source, now, lookbackHours).harvest.seen
      <==> x in h.seen || exists k :: Admits(h, es, k, source, now, lookbackHours) && es[k].link.value == x
  {
    EntriesExtend(h, es, source, now, lookbackHours);
    if x in ScanEntries(h, es, source, now, lookbackHours).harvest.seen && x !in h.seen {
      SeenIsAdmitted(h, es, x, source, now, lookbackHours);
    }
    if exists k :: Admits(h, es, k, source, now, lookbackHours) && es[k].link.value == x {
      var k :| Admits(h, es, k, source, now, lookbackHours) && es[k].link.value == x;
      AdmittedIsSeen(h, es, k, source, now, lookbackHours);
    }
  }

  /** The completeness of a call: a kept entry of any parsed feed, even one after a feed that raised, is among the items. */
  lemma FeedEntryKept(h: Harvest, urls: seq<string>, feeds: seq<Feed>, f: nat, k: int, now: real, lookbackHours: int)
    requires |urls| == |feeds| && f < |feeds| && feeds[f].Parsed?
    requires Kept(ScanFeeds(h, urls[..f], feeds[..f], now, lookbackHours), feeds[f].entries, k, SourceOf(feeds[f].title, urls[f]), now, lookbackHours)
    ensures MakeItem(feeds[f].entries[k], SourceOf(feeds[f].title, urls[f])) in ScanFeeds(h, urls, feeds, now, lookbackHours).items
  {
    var mid := ScanFeeds(h, urls[..f], feeds[..f], now, lookbackHours);
    var item := MakeItem(feeds[f].entries[k], SourceOf(feeds[f].title, urls[f]));
    EntryKept(mid, feeds[f].entries, k, SourceOf(feeds[f].title, urls[f]), now, lookbackHours);
    assert item in FeedStep(mid, urls[f], feeds[f], now, lookbackHours).items;
    assert urls[..f + 1][..f] == urls[..f] && feeds[..f + 1][..f] == feeds[..f];
    var after := ScanFeeds(h, urls[..f + 1], feeds[..f + 1], now, lookbackHours);
    assert after == FeedStep(mid, urls[f], feeds[f], now, lookbackHours);
    FeedOrder(h, urls, feeds, f + 1, now, lookbackHours);
  }

  /** Entry k of parsed feed f is admitted, given the harvest of the feeds before it. */
  predicate AdmitsIn(h: Harvest, urls: seq<string>, feeds: seq<Feed>, f: int, k: int, now: real, lookbackHours: int)
    requires |urls| == |feeds|
  {
    && 0 <= f < |feeds|
    && feeds[f].Parsed?
    && Admits(ScanFeeds(h, urls[..f], feeds[..f], now, lookbackHours), feeds[f].entries, k, SourceOf(feeds[f].title, urls[f]), now, lookbackHours)
  }

  /** Admission in feed f depends only on the feeds up to f. */
  lemma AdmitsInPrefix(h: Harvest, urls: seq<string>, feeds: seq<Feed>, n: nat, f: int, k: int, now: real, lookbackHours: int)
    requires |urls| == |feeds| && 0 <= f < n <= |feeds|
    ensures AdmitsIn(h, urls[..n], feeds[..n], f, k, now, lookbackHours) <==> AdmitsIn(h, urls, feeds, f, k, now, lookbackHours)
  {
    assert urls[..n][..f] == urls[..f] && feeds[..n][..f] == feeds[..f];
    assert urls[..n][f] == urls[f] && feeds[..n][f] == feeds[f];
  }

  /** The link of an admitted entry is seen after the call. */
  lemma AdmittedInIsSeen(h: Harvest, urls: seq<string>, feeds: seq<Feed>, f: int, k: int, now: real, lookbackHours: int)
    requires |urls| == |feeds| && AdmitsIn(h, urls, feeds, f, k, now, lookbackHours)
    ensures feeds[f].entries[k].link.value in ScanFeeds(h, urls, feeds, now, lookbackHours).seen
  {
    var mid := ScanFeeds(h, urls[..f], feeds[..f], now, lookbackHours);
    AdmittedIsSeen(mid, feeds[f].entries, k, SourceOf(feeds[f].title, urls[f]), now, lookbackHours);
    assert urls[..f + 1][..f] == urls[..f] && feeds[..f + 1][..f] == feeds[..f];
    var after := ScanFeeds(h, urls[..f + 1], feeds[..f + 1], now, lookbackHours);
    assert after == FeedStep(mid, urls[f], feeds[f], now, lookbackHours);
    FeedsPrefixSeen(h, urls, feeds, f + 1, now, lookbackHours);
  }

  /** Links seen after the first n feeds stay seen after all of them. */
  lemma {:induction false} FeedsPrefixSeen(h: Harvest, urls: seq<string>, feeds: seq<Feed>, n: nat, now: real, lookbackHours: int)
    requires |urls| == |feeds| && n <= |feeds|
    ensures ScanFeeds(h, urls[..n], feeds[..n], now, lookbackHours).seen <= ScanFeeds(h, urls, feeds, now, lookbackHours).seen
    decreases |feeds|
  {
    if n < |feeds| {
      var m := |feeds| - 1;
      assert urls[..m][..n] == urls[..n] && feeds[..m][..n] == feeds[..n];
      FeedsPrefixSeen(h, urls[..m], feeds[..m], n, now, lookbackHours);
      FeedStepExtends(ScanFeeds(h, urls[..m], feeds[..m], now, lookbackHours), urls[m], feeds[m], now, lookbackHours);
    } else {
      assert urls[..n] == urls && feeds[..n] == feeds;
    }
  }

  /** A link seen after the call and not before comes from an admitted entry of some parsed feed. */
  lemma {:induction false} SeenIsAdmittedIn(h: Harvest, urls: seq<string>, feeds: seq<Feed>, x: string, now: real, lookbackHours: int)
    requires |urls| == |feeds|
    requires x in ScanFeeds(h, urls, feeds, now, lookbackHours).seen && x !in h.seen
    ensures exists f, k :: AdmitsIn(h, urls, feeds, f, k, now, lookbackHours) && feeds[f].entries[k].link.value == x
  {
    var n := |feeds| - 1;
    var mid := ScanFeeds(h, urls[..n], feeds[..n], now, lookbackHours);
    if x in mid.seen {
      SeenIsAdmittedIn(h, urls[..n], feeds[..n], x, now, lookbackHours);
      var f, k :| AdmitsIn(h, urls[..n], feeds[..n], f, k, now, lookbackHours) && feeds[..n][f].entries[k].link.value == x;
      AdmitsInPrefix(h, urls, feeds, n, f, k, now, lookbackHours);
      assert feeds[..n][f] == feeds[f];
    } else {
      var source := SourceOf(feeds[n].title, urls[n]);
      SeenIsAdmitted(mid, feeds[n].entries, x, source, now, lookbackHours);
      var k :| Admits(mid, feeds[n].entries, k, source, now, lookbackHours) && feeds[n].entries[k].link.value == x;
      assert AdmitsIn(h, urls, feeds, n, k, now, lookbackHours);
    }
  }

  /** `seen_entries` after a call is the set before plus the links of the admitted entries of every parsed feed. */
  lemma FeedsSeen(h: Harvest, urls: seq<string>, feeds: seq<Feed>, x: string, now: real, lookbackHours: int)
    requires |urls| == |feeds|
    ensures x in ScanFeeds(h, urls, feeds, now, lookbackHours).seen
      <==> x in h.seen || exists f, k :: AdmitsIn(h, urls, feeds, f, k, now, lookbackHours) && feeds[f].entries[k].link.value == x
  {
    FeedsExtend(h, urls, feeds, now, lookbackHours);
    if x in ScanFeeds(h, urls, feeds, now, lookbackHours).seen && x !in h.seen {
      SeenIsAdmittedIn(h, urls, feeds, x, now, lookbackHours);
    }
    if exists f, k :: AdmitsIn(h, urls, feeds, f, k, now, lookbackHours) && feeds[f].entries[k].link.value == x {
      var f, k :| AdmitsIn(h, urls, feeds, f, k, now, lookbackHours) && feeds[f].entries[k].link.value == x;
      AdmittedInIsSeen(h, urls, feeds, f, k, now, lookbackHours);
    }
  }

  /** Two calls on one scraper never return the same link twice. */
  method TwoCalls(first: seq<Feed>, second: seq<Feed>, lookbackHours: int, now1: real, now2: real)
    returns (a: seq<NewsItem>, b: seq<NewsItem>)
    requires |first| == |DefaultFeeds| && |second| == |DefaultFeeds|
    ensures forall i, j :: 0 <= i < |a| && 0 <= j < |b| ==> a[i].link != b[j].link
    ensures forall i, j :: 0 <= i < j < |b| ==> b[i].link != b[j].link
  {
    var scraper := new NewsScraper();
    a := scraper.GetNews(first, lookbackHours, now1);
    FeedsFresh(Harvest([], {}), DefaultFeeds, first, {}, now1, lookbackHours);
    ghost var seenAfterFirst := scraper.seenEntries;
    b := scraper.GetNews(second, lookbackHours, now2);
    FeedsFresh(Harvest([], seenAfterFirst), DefaultFeeds, second, seenAfterFirst, now2, lookbackHours);
  }
}
