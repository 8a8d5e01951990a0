/** The Zerodha Pulse scraper: mapping feed entries to news records, merging
    the feeds, dropping repeated titles and capping the count. Fetching and
    parsing the RSS document is outside the model: feeds arrive as sequences
    of entry records. */
module ZerodhaScraper {
  import opened Wrappers
  import opened PyStr
  import opened Models
  import opened Utils
  import opened SeqUtil

  /** One feed entry; a missing text field reads as "". `published` is `None`
      when the entry has no usable publication time. */
  datatype FeedEntry = FeedEntry(
    title: string, description: string, summary: string, published: Option<Timestamp>, link: string)

  /** The dictionary the scraper produces for one entry, before it becomes a `NewsItem`. */
  datatype NewsData = NewsData(
    source: NewsSource, title: string, content: string, publishedAt: Timestamp,
    stockSymbol: Option<string>, url: string)

  /** Descriptions shorter than this are not worth adding to the title. */
  const MIN_DESCRIPTION_CHARS := 20

  /** The stripped description, or the stripped summary when that is empty. */
  function EntryDescription(e: FeedEntry): string {
    var d := Strip(e.description);
    if d != "" then d else Strip(e.summary)
  }

  /** The text handed to the model: the title alone, or the title followed by
      ". " and a description of at least 20 characters. */
  function EntryContent(title: string, description: string): (content: string)
    ensures |description| < MIN_DESCRIPTION_CHARS ==> content == title
    ensures |description| >= MIN_DESCRIPTION_CHARS ==> content == title + ". " + description
  {
    if description == "" || |description| < MIN_DESCRIPTION_CHARS then title
    else title + ". " + description
  }

  /** One iteration of the entry loop of `parse_zerodha_feed`; `now` is the
      clock reading used when the entry has no publication time. */
  function EntryToNews(e: FeedEntry, now: Timestamp): (r: Option<NewsData>)
    ensures r.Some? ==> r.value.source == ZERODHA && r.value.stockSymbol == None && r.value.url == e.link
  {
    var title := Strip(e.title);
    if title == "" then None
    else
      var content := EntryContent(title, EntryDescription(e));
      var publishedAt := e.published.GetOr(now);
      if e.link == "" then None
      else Some(NewsData(ZERODHA, SanitizeText(title), SanitizeText(content), publishedAt, None, e.link))
  }

  /** An entry yields an item exactly when its stripped title and its link are
      non-empty; the item holds the sanitised title, the sanitised content and
      the entry's publication time (the clock reading when it has none). */
  lemma EntryToNewsFields(e: FeedEntry, now: Timestamp)
    ensures EntryToNews(e, now).None? <==> Strip(e.title) == "" || e.link == ""
    ensures EntryToNews(e, now).Some? ==>
      var item := EntryToNews(e, now).value;
      && item.title == SanitizeText(Strip(e.title))
      && item.content == SanitizeText(EntryContent(Strip(e.title), EntryDescription(e)))
      && item.publishedAt == e.published.GetOr(now)
  {
  }

  /** `EntryToNews` at a fixed clock reading, as a value. */
  function Mapper(now: Timestamp): FeedEntry -> Option<NewsData> {
    e => EntryToNews(e, now)
  }

  /** The items `parse_zerodha_feed` keeps from a run of entries, in order. */
  function EntriesToNews(entries: seq<FeedEntry>, now: Timestamp): (r: seq<NewsData>)
    ensures |r| <= |entries|
  {
    FilterMap(entries, Mapper(now))
  }

  /** Every item the scraper produces comes from ZERODHA, has no symbol yet and has a link. */
  lemma EntriesToNewsShape(entries: seq<FeedEntry>, now: Timestamp)
    ensures forall x :: x in EntriesToNews(entries, now) ==> x.source == ZERODHA && x.stockSymbol == None && x.url != ""
  {
    forall x | x in EntriesToNews(entries, now) ensures x.source == ZERODHA && x.stockSymbol == None && x.url != "" {
      FilterMapMember(entries, Mapper(now), x);
    }
  }

  /** `parse_zerodha_feed`: only the first `maxItems` entries are looked at;
      an entry without a title or a link is skipped. */
  method ParseZerodhaFeed(entries: seq<FeedEntry>, maxItems: int, now: Timestamp)
    returns (items: seq<NewsData>)
    ensures items == EntriesToNews(Take(entries, maxItems), now)
    ensures maxItems >= 0 ==> |items| <= maxItems
  {
    var examined := Take(entries, maxItems);
    items := [];
    var i := 0;
    while i < |examined|
      invariant 0 <= i <= |examined|
      invariant items == EntriesToNews(examined[..i], now)
    {
      var f := Mapper(now);
      FilterMapAppend(examined[..i], [examined[i]], f);
      FilterMapSingle(examined[i], f);
      assert examined[..i + 1] == examined[..i] + [examined[i]];
      var item := EntryToNews(examined[i], now);
      assert item == f(examined[i]);
      if item.Some? {
        items := items + [item.value];
      }
      i := i + 1;
    }
    assert examined[..i] == examined;
  }

  // ---------------------------------------------------------------------------
  // De-duplication by title

  /** The items kept by the de-duplication loop when `seen` holds the titles
      already taken: each non-empty title the first time it appears. */
  function Dedup(items: seq<NewsData>, seen: set<string>): (r: seq<NewsData>)
    ensures |r| <= |items|
  {
    if items == [] then []
    else if items[0].title != "" && items[0].title !in seen then
      [items[0]] + Dedup(items[1..], seen + {items[0].title})
    else Dedup(items[1..], seen)
  }

  function Titles(items: seq<NewsData>): set<string> {
    set i | 0 <= i < |items| :: items[i].title
  }

  lemma {:induction false} DedupAppend(items: seq<NewsData>, x: NewsData, seen: set<string>)
    ensures Dedup(items + [x], seen) ==
      Dedup(items, seen) + (if x.title != "" && x.title !in seen + Titles(Dedup(items, seen)) then [x] else [])
  {
    if items == [] {
      assert Dedup([x][1..], seen + {x.title}) == [];
    } else {
      assert (items + [x])[1..] == items[1..] + [x];
      if items[0].title != "" && items[0].title !in seen {
        var seen' := seen + {items[0].title};
        DedupAppend(items[1..], x, seen');
        var rest := Dedup(items[1..], seen');
        assert Titles([items[0]] + rest) == {items[0].title} + Titles(rest) by {
          forall t | t in Titles([items[0]] + rest) ensures t in {items[0].title} + Titles(rest) {
            var i :| 0 <= i < |[items[0]] + rest| && ([items[0]] + rest)[i].title == t;
            if i > 0 {
              assert rest[i - 1].title == t;
            }
          }
          forall t | t in Titles(rest) ensures t in Titles([items[0]] + rest) {
            var i :| 0 <= i < |rest| && rest[i].title == t;
            assert ([items[0]] + rest)[i + 1].title == t;
          }
          assert ([items[0]] + rest)[0].title == items[0].title;
        }
      } else {
        DedupAppend(items[1..], x, seen);
      }
    }
  }

  /** The de-duplication loop of `fetch_news`. */
  method DedupeByTitle(allNews: seq<NewsData>) returns (unique: seq<NewsData>)
    ensures unique == Dedup(allNews, {})
  {
    var seenTitles: set<string> := {};
    unique := [];
    var i := 0;
    while i < |allNews|
      invariant 0 <= i <= |allNews|
      invariant unique == Dedup(allNews[..i], {})
      invariant seenTitles == Titles(unique)
    {
      var item := allNews[i];
      DedupAppend(allNews[..i], item, {});
      assert allNews[..i + 1] == allNews[..i] + [item];
      if item.title != "" && item.title !in seenTitles {
        seenTitles := seenTitles + {item.title};
        unique := unique + [item];
        assert Titles(unique) == Titles(unique[..|unique| - 1]) + {item.title} by {
          assert unique[..|unique| - 1] + [item] == unique;
          forall t | t in Titles(unique) ensures t in Titles(unique[..|unique| - 1]) + {item.title} {
            var k :| 0 <= k < |unique| && unique[k].title == t;
            if k < |unique| - 1 {
              assert unique[..|unique| - 1][k].title == t;
            }
          }
          forall t | t in Titles(unique[..|unique| - 1]) ensures t in Titles(unique) {
            var k :| 0 <= k < |unique| - 1 && unique[..|unique| - 1][k].title == t;
            assert unique[k].title == t;
          }
          assert unique[|unique| - 1].title == item.title;
        }
      }
      i := i + 1;
    }
    assert allNews[..i] == allNews;
  }

  /** No two kept items share a title, and no kept title was already seen. */
  lemma {:induction false} DedupDistinct(items: seq<NewsData>, seen: set<string>)
    ensures forall i :: 0 <= i < |Dedup(items, seen)| ==>
      Dedup(items, seen)[i].title != "" && Dedup(items, seen)[i].title !in seen
    ensures forall i, j :: 0 <= i < j < |Dedup(items, seen)| ==>
      Dedup(items, seen)[i].title != Dedup(items, seen)[j].title
  {
    if items != [] {
      if items[0].title != "" && items[0].title !in seen {
        DedupDistinct(items[1..], seen + {items[0].title});
      } else {
        DedupDistinct(items[1..], seen);
      }
    }
  }

  lemma {:induction false} DedupSubsequence(items: seq<NewsData>, seen: set<string>)
    ensures IsSubsequence(Dedup(items, seen), items)
  {
    if items != [] {
      if items[0].title != "" && items[0].title !in seen {
        DedupSubsequence(items[1..], seen + {items[0].title});
        assert ([items[0]] + Dedup(items[1..], seen + {items[0].title}))[1..] == Dedup(items[1..], seen + {items[0].title});
      } else {
        DedupSubsequence(items[1..], seen);
        var r := Dedup(items[1..], seen);
        if r != [] {
          assert IsSubsequence(r, items[1..]);
        }
      }
    }
  }

  /** Every first occurrence of a new, non-empty title is kept. */
  lemma {:induction false} DedupKeepsFirstOccurrences(items: seq<NewsData>, seen: set<string>, i: nat)
    requires i < |items|
    requires items[i].title != "" && items[i].title !in seen
    requires forall j :: 0 <= j < i ==> items[j].title != items[i].title
    ensures items[i] in Dedup(items, seen)
  {
    if i == 0 {
    } else if items[0].title != "" && items[0].title !in seen {
      DedupKeepsFirstOccurrences(items[1..], seen + {items[0].title}, i - 1);
    } else {
      DedupKeepsFirstOccurrences(items[1..], seen, i - 1);
    }
  }

  /** Exactly the non-empty titles of the input survive. */
  lemma DedupTitles(items: seq<NewsData>)
    ensures Titles(Dedup(items, {})) == Titles(items) - {""}
  {
    var r := Dedup(items, {});
    DedupDistinct(items, {});
    DedupSubsequence(items, {});
    forall t | t in Titles(items) - {""} ensures t in Titles(r) {
      var i := FirstWithTitle(items, t);
      DedupKeepsFirstOccurrences(items, {}, i);
      var k :| 0 <= k < |r| && r[k] == items[i];
    }
    forall t | t in Titles(r) ensures t in Titles(items) - {""} {
      var k :| 0 <= k < |r| && r[k].title == t;
      SubsequenceMember(r, items, k);
    }
  }

  /** The index of the first item with title `t`. */
  function FirstWithTitle(items: seq<NewsData>, t: string): (i: nat)
    requires t in Titles(items)
    ensures i < |items| && items[i].title == t
    ensures forall j :: 0 <= j < i ==> items[j].title != t
  {
    if items[0].title == t then 0
    else
      assert t in Titles(items[1..]) by {
        var k :| 0 <= k < |items| && items[k].title == t;
        assert items[1..][k - 1].title == t;
      }
      1 + FirstWithTitle(items[1..], t)
  }

  // ---------------------------------------------------------------------------
  // fetch_news

  /** `fetch_news`: every feed's items in feed order, repeated titles dropped,
      then cut to `maxItems`. */
  method FetchNews(feeds: seq<seq<FeedEntry>>, maxItems: int, now: Timestamp)
    returns (news: seq<NewsData>)
    ensures news == Take(Dedup(AllFeedItems(feeds, maxItems, now), {}), maxItems)
    ensures maxItems >= 0 ==> |news| <= maxItems
    ensures forall i, j :: 0 <= i < j < |news| ==> news[i].title != news[j].title
    ensures forall i :: 0 <= i < |news| ==> news[i].title != "" && news[i].source == ZERODHA && news[i].stockSymbol == None
  {
    var allNews: seq<NewsData> := [];
    var f := 0;
    while f < |feeds|
      invariant 0 <= f <= |feeds|
      invariant allNews == AllFeedItems(feeds[..f], maxItems, now)
    {
      var items := ParseZerodhaFeed(feeds[f], maxItems, now);
      AllFeedItemsStep(feeds, f, maxItems, now);
      allNews := allNews + items;
      f := f + 1;
    }
    assert feeds[..f] == feeds;
    var unique := DedupeByTitle(allNews);
    news := Take(unique, maxItems);
    FetchedNewsShape(feeds, maxItems, now);
  }

  /** After de-duplication and the cut the titles are non-empty and
      distinct, and every item still carries the Zerodha source and no symbol. */
  lemma FetchedNewsShape(feeds: seq<seq<FeedEntry>>, maxItems: int, now: Timestamp)
    ensures var news := Take(Dedup(AllFeedItems(feeds, maxItems, now), {}), maxItems);
      && (maxItems >= 0 ==> |news| <= maxItems)
      && (forall i, j :: 0 <= i < j < |news| ==> news[i].title != news[j].title)
      && (forall i :: 0 <= i < |news| ==>
            news[i].title != "" && news[i].source == ZERODHA && news[i].stockSymbol == None)
  {
    var allNews := AllFeedItems(feeds, maxItems, now);
    var unique := Dedup(allNews, {});
    var news := Take(unique, maxItems);
    DedupDistinct(allNews, {});
    DedupSubsequence(allNews, {});
    AllFeedItemsShape(feeds, maxItems, now);
    forall i | 0 <= i < |news| ensures news[i] == unique[i] && news[i].source == ZERODHA && news[i].stockSymbol == None {
      SubsequenceMember(unique, allNews, i);
    }
  }

  /** The items of every feed, concatenated in feed order. */
  function AllFeedItems(feeds: seq<seq<FeedEntry>>, maxItems: int, now: Timestamp): (r: seq<NewsData>)
  {
    if feeds == [] then []
    else AllFeedItems(feeds[..|feeds| - 1], maxItems, now) + EntriesToNews(Take(feeds[|feeds| - 1], maxItems), now)
  }

  lemma AllFeedItemsAppend(feeds: seq<seq<FeedEntry>>, feed: seq<FeedEntry>, maxItems: int, now: Timestamp)
    ensures AllFeedItems(feeds + [feed], maxItems, now) ==
      AllFeedItems(feeds, maxItems, now) + EntriesToNews(Take(feed, maxItems), now)
  {
    assert (feeds + [feed])[..|feeds|] == feeds;
  }

  lemma AllFeedItemsStep(feeds: seq<seq<FeedEntry>>, f: nat, maxItems: int, now: Timestamp)
    requires f < |feeds|
    ensures AllFeedItems(feeds[..f + 1], maxItems, now) ==
      AllFeedItems(feeds[..f], maxItems, now) + EntriesToNews(Take(feeds[f], maxItems), now)
  {
    assert feeds[..f + 1] == feeds[..f] + [feeds[f]];
    AllFeedItemsAppend(feeds[..f], feeds[f], maxItems, now);
  }

  lemma {:induction false} AllFeedItemsShape(feeds: seq<seq<FeedEntry>>, maxItems: int, now: Timestamp)
    ensures forall x :: x in AllFeedItems(feeds, maxItems, now) ==> x.source == ZERODHA && x.stockSymbol == None
  {
    if feeds != [] {
      AllFeedItemsShape(feeds[..|feeds| - 1], maxItems, now);
      EntriesToNewsShape(Take(feeds[|feeds| - 1], maxItems), now);
    }
  }
}
