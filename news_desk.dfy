/**
 * The AI news bot's web side: the subscriber list behind the subscribers API,
 * the global news cache behind the news API, and the scheduled job that mails
 * the digest. The JSON file holding the list is the `subscribers` field; the
 * clock and the feed downloads are parameters.
 */
module NewsDesk {
  import opened Wrappers
  import opened NewsScraping

  /** `subs.remove(x)`: deletes the first occurrence of `x`, or leaves `s` as it is. */
  function RemoveFirst(s: seq<string>, x: string): seq<string>
  {
    if s == [] then []
    else if s[0] == x then s[1..]
    else [s[0]] + RemoveFirst(s[1..], x)
  }

  /** Removing an address that is not in the list leaves the list as it is. */
  lemma {:induction false} RemoveAbsent(s: seq<string>, x: string)
    requires x !in s
    ensures RemoveFirst(s, x) == s
  {
    if s != [] {
      assert x !in s[1..];
      RemoveAbsent(s[1..], x);
    }
  }

  /** Removal cuts out exactly the first occurrence, at index `i`. */
  lemma {:induction false} RemoveCut(s: seq<string>, x: string, i: nat)
    requires i < |s| && s[i] == x && x !in s[..i]
    ensures RemoveFirst(s, x) == s[..i] + s[i + 1..]
  {
    if i > 0 {
      assert s[0] == s[..i][0];
      assert s[1..][..i - 1] == s[1..i];
      assert x !in s[1..][..i - 1];
      RemoveCut(s[1..], x, i - 1);
      assert s[..i] == [s[0]] + s[1..i];
      assert s[1..][i..] == s[i + 1..];
    }
  }

  /** `x in s` finds a first occurrence. */
  lemma FirstOccurrence(s: seq<string>, x: string) returns (i: nat)
    requires x in s
    ensures i < |s| && s[i] == x && x !in s[..i]
  {
    i := 0;
    while s[i] != x
      invariant i < |s| && x !in s[..i]
      invariant x in s[i..]
      decreases |s| - i
    {
      assert s[i..] == [s[i]] + s[i + 1..];
      i := i + 1;
    }
  }

  /** Removal takes away one copy of `x` and nothing else. */
  lemma RemoveMultiset(s: seq<string>, x: string)
    ensures multiset(RemoveFirst(s, x)) == multiset(s) - multiset{x}
  {
    if x in s {
      var i := FirstOccurrence(s, x);
      RemoveCut(s, x, i);
      var front, back := s[..i], s[i + 1..];
      assert s == front + [x] + back;
      assert multiset(s) == multiset(front) + multiset{x} + multiset(back);
      assert multiset(front + back) == multiset(front) + multiset(back);
    } else {
      RemoveAbsent(s, x);
      assert multiset(s)[x] == 0;
    }
  }

  predicate NoDuplicates(s: seq<string>)
  {
    forall i, j :: 0 <= i < j < |s| ==> s[i] != s[j]
  }

  /** What the subscriber routes answer: the list, or an error with status 400. */
  datatype Reply = Subscribers(list: seq<string>) | BadRequest(error: string)

  function Status(r: Reply): int
  {
    if r.BadRequest? then 400 else 200
  }

  const EmailRequired: string := "Email is required"

  /** `email` is falsy in Python: absent (None) or the empty string. */
  predicate Missing(email: Option<string>)
  {
    email.None? || email.value == ""
  }

  class SubscriberStore {
    var subscribers: seq<string>

    constructor (initial: seq<string>)
      ensures subscribers == initial
    {
      subscribers := initial;
    }

    /** `add_subscriber`: append a new address at the end; a known one changes nothing. */
    method AddSubscriber(email: Option<string>) returns (reply: Reply)
      modifies this
      ensures Missing(email) ==> reply == BadRequest(EmailRequired) && subscribers == old(subscribers)
      ensures !Missing(email) && email.value in old(subscribers) ==> subscribers == old(subscribers)
      ensures !Missing(email) && email.value !in old(subscribers) ==> subscribers == old(subscribers) + [email.value]
      ensures !Missing(email) ==> reply == Subscribers(subscribers)
      ensures NoDuplicates(old(subscribers)) ==> NoDuplicates(subscribers)
    {
      if email.None? || email.value == "" {
        return BadRequest(EmailRequired);
      }
      if email.value !in subscribers {
        subscribers := subscribers + [email.value];
      }
      reply := Subscribers(subscribers);
    }

    /** `remove_subscriber`: drop the first occurrence of the address, if any. */
    method RemoveSubscriber(email: Option<string>) returns (reply: Reply)
      modifies this
      ensures email.None? ==> subscribers == old(subscribers)
      ensures email.Some? ==> subscribers == RemoveFirst(old(subscribers), email.value)
      ensures reply == Subscribers(subscribers)
    {
      if email.Some? && email.value in subscribers {
        subscribers := RemoveFirst(subscribers, email.value);
      } else if email.Some? {
        RemoveAbsent(subscribers, email.value);
      }
      reply := Subscribers(subscribers);
    }
  }

  /** Subscribing a new address and then unsubscribing it restores the list. */
  lemma {:induction false} AddThenRemove(s: seq<string>, x: string)
    requires x !in s
    ensures RemoveFirst(s + [x], x) == s
    decreases |s|
  {
    if s != [] {
      assert (s + [x])[1..] == s[1..] + [x];
      AddThenRemove(s[1..], x);
      assert [s[0]] + s[1..] == s;
    }
  }

  /** Removal keeps a list free of duplicates, and then no copy of the address is left. */
  lemma RemovePreservesNoDuplicates(s: seq<string>, x: string)
    requires NoDuplicates(s)
    ensures NoDuplicates(RemoveFirst(s, x))
    ensures x !in RemoveFirst(s, x)
  {
    if x in s {
      var i := FirstOccurrence(s, x);
      RemoveCut(s, x, i);
      var r := RemoveFirst(s, x);
      forall a, b | 0 <= a < b < |r|
        ensures r[a] != r[b]
      {
        var a', b' := if a < i then a else a + 1, if b < i then b else b + 1;
        assert r[a] == s[a'] && r[b] == s[b'];
      }
      forall k | 0 <= k < |r|
        ensures r[k] != x
      {
        var k' := if k < i then k else k + 1;
        assert r[k] == s[k'];
      }
    } else {
      RemoveAbsent(s, x);
    }
  }

  /** What the scheduled job mails: the articles, to every subscriber. */
  datatype Digest = Digest(news: seq<NewsItem>, recipients: seq<string>)

  const CacheDuration: real := 1800.0
  const DigestLookbackHours: int := 24

  /** The cache is refreshed when it is empty or older than the cache duration. */
  predicate Stale(data: seq<NewsItem>, lastUpdated: real, now: real)
  {
    data == [] || now - lastUpdated > CacheDuration
  }

  /** A scrape by a new scraper: nothing is seen yet, so only links repeated within the call are dropped. */
  function Scrape(parsed: seq<Feed>, now: real): seq<NewsItem>
    requires |parsed| == |DefaultFeeds|
  {
    ScanFeeds(Harvest([], {}), DefaultFeeds, parsed, now, DigestLookbackHours).items
  }

  /** A scrape never returns a link twice, and returns only entries of the last day. */
  lemma ScrapeIsFresh(parsed: seq<Feed>, now: real)
    requires |parsed| == |DefaultFeeds|
    ensures forall i, j :: 0 <= i < j < |Scrape(parsed, now)| ==> Scrape(parsed, now)[i].link != Scrape(parsed, now)[j].link
    ensures forall i :: 0 <= i < |Scrape(parsed, now)| ==> FromFeeds(Scrape(parsed, now)[i], DefaultFeeds, parsed, now, DigestLookbackHours)
  {
    FeedsFresh(Harvest([], {}), DefaultFeeds, parsed, {}, now, DigestLookbackHours);
    FeedsOrigin(Harvest([], {}), DefaultFeeds, parsed, now, DigestLookbackHours);
  }

  /** The global `NEWS_CACHE`. */
  class NewsCache {
    var data: seq<NewsItem>
    var lastUpdated: real

    constructor ()
      ensures data == [] && lastUpdated == 0.0
    {
      data := [];
      lastUpdated := 0.0;
    }

    /**
     * `update_cache`: scrape with a new scraper; only a non-empty result
     * replaces the cache, stamped with `fetchedAt`, the clock read after the
     * scrape.
     */
    method UpdateCache(parsed: seq<Feed>, now: real, fetchedAt: real) returns (news: seq<NewsItem>)
      requires |parsed| == |DefaultFeeds|
      modifies this
      ensures news == Scrape(parsed, now)
      ensures news != [] ==> data == news && lastUpdated == fetchedAt
      ensures news == [] ==> data == old(data) && lastUpdated == old(lastUpdated)
    {
      var scraper := new NewsScraper();
      news := scraper.GetNews(parsed, DigestLookbackHours, now);
      if news != [] {
        data := news;
        lastUpdated := fetchedAt;
      }
    }

    /** `get_cached_news`: refresh when stale, otherwise serve the cache as it is. */
    method GetCachedNews(parsed: seq<Feed>, now: real, fetchedAt: real) returns (news: seq<NewsItem>)
      requires |parsed| == |DefaultFeeds|
      modifies this
      ensures !Stale(old(data), old(lastUpdated), now) ==> news == old(data) && data == old(data) && lastUpdated == old(lastUpdated)
      ensures Stale(old(data), old(lastUpdated), now) ==> news == Scrape(parsed, now)
      ensures Stale(old(data), old(lastUpdated), now) && news != [] ==> data == news && lastUpdated == fetchedAt
      ensures Stale(old(data), old(lastUpdated), now) && news == [] ==> data == old(data) && lastUpdated == old(lastUpdated)
      ensures old(data) != [] ==> data != []
    {
      if data == [] || now - lastUpdated > CacheDuration {
        news := UpdateCache(parsed, now, fetchedAt);
      } else {
        news := data;
      }
    }

    /** `run_job`: refresh the cache and mail a digest only when there is news and someone to send it to. */
    method RunJob(parsed: seq<Feed>, recipients: seq<string>, now: real, fetchedAt: real) returns (digest: Option<Digest>)
      requires |parsed| == |DefaultFeeds|
      modifies this
      ensures digest.Some? <==> Scrape(parsed, now) != [] && recipients != []
      ensures digest.Some? ==> digest.value == Digest(Scrape(parsed, now), recipients)
      ensures Scrape(parsed, now) != [] ==> data == Scrape(parsed, now) && lastUpdated == fetchedAt
      ensures Scrape(parsed, now) == [] ==> data == old(data) && lastUpdated == old(lastUpdated)
    {
      var news := UpdateCache(parsed, now, fetchedAt);
      if news != [] && recipients != [] {
        digest := Some(Digest(news, recipients));
      } else {
        digest := None;
      }
    }
  }

  /**
   * Within the cache duration after a successful refresh, the news API serves
   * the refreshed articles again without scraping, whatever the feeds now say.
   */
  method ServedFromCache(first: seq<Feed>, later: seq<Feed>, t1: real, fetched1: real, t2: real, fetched2: real)
    returns (refreshed: seq<NewsItem>, served: seq<NewsItem>)
    requires |first| == |DefaultFeeds| && |later| == |DefaultFeeds|
    requires t1 <= fetched1 <= t2 <= fetched1 + CacheDuration
    ensures refreshed == Scrape(first, t1)
    ensures refreshed != [] ==> served == refreshed
    ensures refreshed == [] ==> served == Scrape(later, t2)
  {
    var cache := new NewsCache();
    refreshed := cache.UpdateCache(first, t1, fetched1);
    served := cache.GetCachedNews(later, t2, fetched2);
  }
}
