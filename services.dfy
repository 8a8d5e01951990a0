/** `WatchlistGeneratorService`: fetching and validating the news, extracting
    symbols and analysing the items (the thread-pool collection loops become
    sequential loops over the order in which results arrive), aggregating the
    analyses into the watchlist, and the response of a complete run. */
module Services {
  import opened Wrappers
  import opened PyStr
  import opened Models
  import opened Utils
  import opened Constants
  import opened SeqUtil
  import opened WatchlistSpec
  import opened Prompts
  import opened LlmClient
  import ZerodhaScraper

  /** What the service works with: the configured watchlist size, the model
      client, the system prompt, and the two model calls it makes. `extract`
      stands for `extract_stock_symbols_with_llm`, which answers [] on any
      failure; `invoke` for the Bedrock request behind `analyze_news`. */
  datatype Service = Service(
    maxWatchlistSize: int,
    client: Client,
    systemPrompt: string,
    extract: (string, string) -> seq<string>,
    invoke: (Handler, string, string) -> Reply)

  /** What the analysis pool hands back for one item: the value the submitted call
      returned, or the exception it raised. */
  datatype Outcome = Completed(result: Option<AnalysisResult>) | Errored

  /** The orders in which the two thread pools hand back finished work. */
  datatype Schedules = Schedules(
    symbols: seq<NewsItem> -> seq<NewsItem>,
    analyses: seq<Outcome> -> seq<Outcome>)

  ghost predicate ValidSchedules(sched: Schedules) {
    IsReordering(sched.symbols) && IsReordering(sched.analyses)
  }

  // ---------------------------------------------------------------------------
  // fetch_all_news

  /** `NewsItem(**news_data)`, with a validation error as `None`. */
  function ToNewsItem(d: ZerodhaScraper.NewsData): (r: Option<NewsItem>)
    ensures r.Some? <==>
      1 <= |d.title| <= 500 && |d.content| >= 1 && (d.stockSymbol.Some? ==> |d.stockSymbol.value| <= 20)
    ensures r.Some? ==> r.value.title == d.title && r.value.content == d.content && r.value.publishedAt == d.publishedAt
  {
    match NewNewsItem(d.source, d.title, d.content, d.publishedAt, d.stockSymbol, d.url)
    case Success(item) => Some(item)
    case Failure(_) => None
  }

  /** The news a run starts from; `fetched` is `None` when the scraper raised. */
  function FetchedNews(fetched: Option<seq<ZerodhaScraper.NewsData>>): seq<NewsItem> {
    if fetched.None? then [] else FilterMap(fetched.value, ToNewsItem)
  }

  /** `fetch_all_news`: the items that validate, in the scraper's order; each
      one that does not, and a failing scraper, counts one error. */
  method FetchAllNews(fetched: Option<seq<ZerodhaScraper.NewsData>>)
    returns (allNews: seq<NewsItem>, errors: nat)
    ensures allNews == FetchedNews(fetched)
    ensures fetched.None? ==> errors == 1
    ensures fetched.Some? ==> |allNews| + errors == |fetched.value|
    ensures forall item :: item in allNews ==> 1 <= |item.title| <= 500 && |item.content| >= 1
  {
    allNews := [];
    errors := 0;
    if fetched.None? {
      errors := 1;
      return;
    }
    var data := fetched.value;
    var i := 0;
    while i < |data|
      invariant 0 <= i <= |data|
      invariant allNews == FilterMap(data[..i], ToNewsItem)
      invariant |allNews| + errors == i
    {
      var d := data[i];
      assert data[..i + 1] == data[..i] + [d];
      FilterMapAppend(data[..i], [d], ToNewsItem);
      FilterMapSingle(d, ToNewsItem);
      var made := NewNewsItem(d.source, d.title, d.content, d.publishedAt, d.stockSymbol, d.url);
      if made.Success? {
        allNews := allNews + [made.value];
      } else {
        errors := errors + 1;
      }
      i := i + 1;
    }
    assert data[..i] == data;
    forall item | item in allNews ensures 1 <= |item.title| <= 500 && |item.content| >= 1 {
      FilterMapMember(data, ToNewsItem, item);
    }
  }

  // ---------------------------------------------------------------------------
  // extract_symbols_parallel

  /** `if item.stock_symbol:` — `None` and "" are both falsy. */
  predicate HasSymbol(item: NewsItem) {
    item.stockSymbol.Some? && item.stockSymbol.value != ""
  }

  /** `_extract_symbol_for_item`: an item without a symbol takes the first
      extracted one, if any; nothing else about the item changes. The
      assignment bypasses validation, so the symbol is not upper-cased. */
  function ExtractSymbolForItem(svc: Service, item: NewsItem): (r: NewsItem)
    ensures r.(stockSymbol := item.stockSymbol) == item
    ensures HasSymbol(item) ==> r == item
    ensures !HasSymbol(item) ==>
      var symbols := svc.extract(item.title, item.content);
      && (HasSymbol(r) <==> symbols != [] && symbols[0] != "")
      && (symbols != [] ==> r.stockSymbol == Some(symbols[0]))
  {
    if HasSymbol(item) then item
    else
      var symbols := svc.extract(item.title, item.content);
      if symbols != [] then item.(stockSymbol := Some(symbols[0])) else item
  }

  function ExtractStep(svc: Service): NewsItem -> NewsItem {
    item => ExtractSymbolForItem(svc, item)
  }

  /** The items after extraction, in submission order. */
  function Extracted(svc: Service, items: seq<NewsItem>): seq<NewsItem> {
    MapSeq(items, ExtractStep(svc))
  }

  function KeepIfSymbol(item: NewsItem): Option<NewsItem> {
    if HasSymbol(item) then Some(item) else None
  }

  /** The items of `items` that have a symbol, in order. */
  function WithSymbols(items: seq<NewsItem>): seq<NewsItem> {
    FilterMap(items, KeepIfSymbol)
  }

  /** An item is kept exactly when it has a symbol. */
  lemma WithSymbolsMembers(items: seq<NewsItem>)
    ensures forall x :: x in WithSymbols(items) <==> x in items && HasSymbol(x)
  {
    forall x | x in WithSymbols(items) ensures x in items && HasSymbol(x) {
      FilterMapMember(items, KeepIfSymbol, x);
    }
    forall x | x in items && HasSymbol(x) ensures x in WithSymbols(items) {
      FilterMapHas(items, KeepIfSymbol, x);
    }
  }

  /** `extract_symbols_parallel`: the collection loop over the extracted items
      in the order the pool hands them back. Whatever that order, the result
      holds the same items: exactly the extracted ones that have a symbol. */
  method ExtractSymbolsParallel(svc: Service, sched: Schedules, newsItems: seq<NewsItem>)
    returns (itemsWithSymbols: seq<NewsItem>)
    requires IsReordering(sched.symbols)
    ensures itemsWithSymbols == WithSymbols(sched.symbols(Extracted(svc, newsItems)))
    ensures multiset(itemsWithSymbols) == multiset(WithSymbols(Extracted(svc, newsItems)))
    ensures forall x :: x in itemsWithSymbols <==> x in Extracted(svc, newsItems) && HasSymbol(x)
    ensures |itemsWithSymbols| <= |newsItems|
  {
    var extracted := Extracted(svc, newsItems);
    var delivered := sched.symbols(extracted);
    assert multiset(delivered) == multiset(extracted);
    itemsWithSymbols := [];
    var k := 0;
    while k < |delivered|
      invariant 0 <= k <= |delivered|
      invariant itemsWithSymbols == WithSymbols(delivered[..k])
    {
      var item := delivered[k];
      assert delivered[..k + 1] == delivered[..k] + [item];
      FilterMapAppend(delivered[..k], [item], KeepIfSymbol);
      FilterMapSingle(item, KeepIfSymbol);
      if HasSymbol(item) {
        itemsWithSymbols := itemsWithSymbols + [item];
      }
      k := k + 1;
    }
    assert delivered[..k] == delivered;
    FilterMapPermutation(delivered, extracted, KeepIfSymbol);
    WithSymbolsMembers(delivered);
    forall x ensures x in delivered <==> x in extracted {
      assert x in delivered <==> x in multiset(delivered);
    }
    assert |delivered| == |multiset(delivered)| == |extracted|;
  }

  // ---------------------------------------------------------------------------
  // _analyze_single_item

  /** The fields of `LLMAnalysisResponse(**reply)` read from the model's JSON
      reply: each must be present with its type; a whole-number confidence is
      accepted as a float, and extra keys are ignored. */
  function DecodeAnalysis(body: map<string, Json>): (r: Option<RawAnalysis>)
    ensures r.Some? <==> && "event_type" in body && body["event_type"].JStr?
                         && "direction" in body && body["direction"].JStr?
                         && "impact_strength" in body && body["impact_strength"].JInt?
                         && "confidence" in body && (body["confidence"].JReal? || body["confidence"].JInt?)
                         && "rationale" in body && body["rationale"].JStr?
    ensures r.Some? ==> "rationale" in body && body["rationale"] == JStr(r.value.rationale)
    ensures r.Some? ==> "impact_strength" in body && body["impact_strength"] == JInt(r.value.impactStrength)
    ensures r.Some? ==> "event_type" in body && body["event_type"] == JStr(r.value.eventType)
    ensures r.Some? ==> "direction" in body && body["direction"] == JStr(r.value.direction)
    ensures r.Some? ==> "confidence" in body && (body["confidence"] == JReal(r.value.confidence)
                                                 || body["confidence"] == JInt(r.value.confidence.Floor))
    ensures "confidence" in body && body["confidence"].JStr? ==> r.None?
  {
    if && "event_type" in body && body["event_type"].JStr?
       && "direction" in body && body["direction"].JStr?
       && "impact_strength" in body && body["impact_strength"].JInt?
       && "confidence" in body && (body["confidence"].JReal? || body["confidence"].JInt?)
       && "rationale" in body && body["rationale"].JStr?
    then
      var confidence := if body["confidence"].JReal? then body["confidence"].r else body["confidence"].i as real;
      Some(RawAnalysis(body["event_type"].s, body["direction"].s, body["impact_strength"].i,
                       confidence, body["rationale"].s))
    else None
  }

  function AnalysisPromptFor(item: NewsItem): string {
    FormatAnalysisPrompt(item.stockSymbol, item.title, item.content)
  }

  /** The reply is usable: it decodes, its impact and confidence are in range,
      its rationale fits an `AnalysisResult`, and the item's symbol fits too. */
  predicate Accepted(item: NewsItem, reply: Reply) {
    && reply.Answer?
    && DecodeAnalysis(reply.body).Some?
    && var raw := DecodeAnalysis(reply.body).value;
    && ImpactInRange(raw.impactStrength) && ConfidenceInRange(raw.confidence)
    && 1 <= |raw.rationale| <= 200
    && item.stockSymbol.Some? && |item.stockSymbol.value| <= 20
  }

  /** The `AnalysisResult` built from a validated response, with
      `bias_score = impact_strength * confidence`; a validation error is `None`. */
  function ResultFromResponse(item: NewsItem, v: LlmAnalysisResponse): (r: Option<AnalysisResult>)
    requires ParseEventType(v.eventType).Some? && ParseDirection(v.direction).Some?
    ensures r.Some? <==>
      && ImpactInRange(v.impactStrength) && ConfidenceInRange(v.confidence)
      && 1 <= |v.rationale| <= 200
      && item.stockSymbol.Some? && |item.stockSymbol.value| <= 20
    ensures r.Some? ==>
      && r.value.stockSymbol == Upper(item.stockSymbol.value)
      && r.value.newsPublishedAt == item.publishedAt
      && r.value.rationale == v.rationale
      && r.value.impactStrength == v.impactStrength
      && r.value.confidence == v.confidence
      && r.value.biasScore == v.impactStrength as real * v.confidence
      && DirectionValue(r.value.direction) == v.direction
      && EventTypeValue(r.value.eventType) == v.eventType
  {
    var eventType := ParseEventType(v.eventType).value;
    var direction := ParseDirection(v.direction).value;
    var bias := v.impactStrength as real * v.confidence;
    assert ImpactInRange(v.impactStrength) && ConfidenceInRange(v.confidence) ==> 0.0 <= bias <= 5.0 by {
      if ImpactInRange(v.impactStrength) && ConfidenceInRange(v.confidence) {
        ProductInRange(v.impactStrength, v.confidence);
      }
    }
    match NewAnalysisResult(item.stockSymbol, eventType, direction, v.impactStrength, v.confidence,
                            v.rationale, Given(bias), item.publishedAt)
    case Success(a) => Some(a)
    case Failure(_) => None
  }

  /** What `_analyze_single_item` makes of the model's reply: the response is
      validated and turned into an `AnalysisResult`; every exception along the
      way is caught and becomes `None`. */
  function AnalysisFromReply(item: NewsItem, reply: Reply): (r: Option<AnalysisResult>)
    ensures r.Some? <==> Accepted(item, reply)
    ensures r.Some? ==>
      var raw := DecodeAnalysis(reply.body).value;
      && r.value.stockSymbol == Upper(item.stockSymbol.value)
      && r.value.newsPublishedAt == item.publishedAt
      && r.value.rationale == raw.rationale
      && r.value.biasScore == raw.impactStrength as real * raw.confidence
      && DirectionValue(r.value.direction) == ValidateDirection(raw.direction)
      && EventTypeValue(r.value.eventType) == ValidateEventType(raw.eventType)
  {
    if reply.Raised? then None
    else
      match DecodeAnalysis(reply.body)
      case None => None
      case Some(raw) =>
        match NewLlmAnalysisResponse(raw)
        case Failure(_) => None
        case Success(v) => ResultFromResponse(item, v)
  }

  /** The model's reply to the analysis prompt for `item`. */
  function AnalysisReply(svc: Service, item: NewsItem): Reply {
    AnalyzeNews(svc.client, svc.systemPrompt, AnalysisPromptFor(item), svc.invoke)
  }

  /** `_analyze_single_item`: format the prompt, call the model, read the reply. */
  function AnalyzeSingleItem(svc: Service, item: NewsItem): Option<AnalysisResult> {
    AnalysisFromReply(item, AnalysisReply(svc, item))
  }

  function AnalyzeStep(svc: Service): NewsItem -> Outcome {
    item => Completed(AnalyzeSingleItem(svc, item))
  }

  /** The outcome of each submitted item, in submission order. */
  function Outcomes(svc: Service, items: seq<NewsItem>): seq<Outcome> {
    MapSeq(items, AnalyzeStep(svc))
  }

  // ---------------------------------------------------------------------------
  // analyze_all_news

  function SuccessOf(o: Outcome): Option<AnalysisResult> {
    if o.Completed? then o.result else None
  }

  /** An outcome that counts as an error: `None`, or an exception. */
  function ErrorOf(o: Outcome): Option<Outcome> {
    if SuccessOf(o).None? then Some(o) else None
  }

  /** The analyses among the outcomes, in the order they arrived. */
  function Successes(delivered: seq<Outcome>): seq<AnalysisResult> {
    FilterMap(delivered, SuccessOf)
  }

  /** The collection loop of `analyze_all_news`: each outcome is counted once,
      as analysed when it carries an analysis and as an error when it is
      `None` or an exception; only the analyses are kept, in arrival order. */
  method CollectAnalyses(delivered: seq<Outcome>) returns (analyses: seq<AnalysisResult>, analyzed: nat, errors: nat)
    ensures analyses == Successes(delivered)
    ensures errors == |FilterMap(delivered, ErrorOf)|
    ensures analyzed == |analyses|
    ensures analyzed + errors == |delivered|
  {
    analyses, analyzed, errors := [], 0, 0;
    var k := 0;
    while k < |delivered|
      invariant 0 <= k <= |delivered|
      invariant analyses == Successes(delivered[..k])
      invariant errors == |FilterMap(delivered[..k], ErrorOf)|
      invariant analyzed == |analyses| && analyzed + errors == k
    {
      var outcome := delivered[k];
      assert delivered[..k + 1] == delivered[..k] + [outcome];
      FilterMapAppend(delivered[..k], [outcome], SuccessOf);
      FilterMapSingle(outcome, SuccessOf);
      FilterMapAppend(delivered[..k], [outcome], ErrorOf);
      FilterMapSingle(outcome, ErrorOf);
      if outcome.Errored? {
        errors := errors + 1;
      } else if outcome.result.Some? {
        analyses := analyses + [outcome.result.value];
        analyzed := analyzed + 1;
      } else {
        errors := errors + 1;
      }
      k := k + 1;
    }
    assert delivered[..k] == delivered;
  }

  /** The counters `analyze_all_news` logs. */
  datatype AnalysisStats = AnalysisStats(total: nat, withSymbols: nat, analyzed: nat, errors: nat)

  /** The analyses `analyze_all_news` returns when the pools hand work back in
      the orders `sched` gives. */
  function PipelineAnalyses(svc: Service, sched: Schedules, newsItems: seq<NewsItem>): seq<AnalysisResult> {
    if newsItems == [] then []
    else
      var withSymbols := WithSymbols(sched.symbols(Extracted(svc, newsItems)));
      if withSymbols == [] then []
      else Successes(sched.analyses(Outcomes(svc, withSymbols)))
  }

  /** The analyses obtained when every result comes back in submission order. */
  function SubmissionOrderAnalyses(svc: Service, newsItems: seq<NewsItem>): seq<AnalysisResult> {
    Successes(Outcomes(svc, WithSymbols(Extracted(svc, newsItems))))
  }

  /** The order in which the pools complete their work changes the order of
      the analyses, never which analyses there are. */
  lemma {:induction false} CompletionOrderIrrelevant(svc: Service, sched: Schedules, newsItems: seq<NewsItem>)
    requires ValidSchedules(sched)
    ensures multiset(PipelineAnalyses(svc, sched, newsItems)) == multiset(SubmissionOrderAnalyses(svc, newsItems))
  {
    var extracted := Extracted(svc, newsItems);
    var inOrder := WithSymbols(extracted);
    if newsItems == [] {
      assert extracted == [] && inOrder == [];
      assert Outcomes(svc, inOrder) == [];
    } else {
      var delivered := sched.symbols(extracted);
      assert multiset(delivered) == multiset(extracted);
      var withSymbols := WithSymbols(delivered);
      FilterMapPermutation(delivered, extracted, KeepIfSymbol);
      if withSymbols == [] {
        assert |inOrder| == |multiset(inOrder)| == 0;
        assert Outcomes(svc, inOrder) == [];
      } else {
        var outcomes := Outcomes(svc, withSymbols);
        MapSeqPermutation(withSymbols, inOrder, AnalyzeStep(svc));
        var arrived := sched.analyses(outcomes);
        assert multiset(arrived) == multiset(outcomes);
        FilterMapPermutation(arrived, Outcomes(svc, inOrder), SuccessOf);
      }
    }
  }

  /** `analyze_all_news`: symbols first, then the analyses; it stops early
      when there is nothing to analyse. */
  method AnalyzeAllNews(svc: Service, sched: Schedules, newsItems: seq<NewsItem>)
    returns (analyses: seq<AnalysisResult>, stats: AnalysisStats)
    requires ValidSchedules(sched)
    ensures analyses == PipelineAnalyses(svc, sched, newsItems)
    ensures multiset(analyses) == multiset(SubmissionOrderAnalyses(svc, newsItems))
    ensures stats.total == |newsItems| && stats.analyzed == |analyses|
    ensures stats.analyzed + stats.errors == stats.withSymbols <= stats.total
  {
    CompletionOrderIrrelevant(svc, sched, newsItems);
    stats := AnalysisStats(|newsItems|, 0, 0, 0);
    if newsItems == [] {
      return [], stats;
    }
    var itemsWithSymbols := ExtractSymbolsParallel(svc, sched, newsItems);
    stats := stats.(withSymbols := |itemsWithSymbols|);
    if itemsWithSymbols == [] {
      return [], stats;
    }
    var outcomes := Outcomes(svc, itemsWithSymbols);
    var delivered := sched.analyses(outcomes);
    assert |delivered| == |multiset(delivered)| == |multiset(outcomes)| == |itemsWithSymbols|;
    var analyzed, errors;
    analyses, analyzed, errors := CollectAnalyses(delivered);
    stats := stats.(analyzed := analyzed, errors := errors);
  }

  // ---------------------------------------------------------------------------
  // generate_watchlist

  /** One pass of the first loop of `generate_watchlist`: the analysis's
      symbol gets an empty aggregate (appended to the keys) if it has none
      yet; then the analysis is appended to it, its bias score added to the
      total, its direction counted (a new direction becomes the last key of
      the tally) and the latest publication time advanced. */
  method AddToAggregates(keys: seq<string>, aggs: map<string, Aggregate>, analysis: AnalysisResult)
    returns (keys': seq<string>, aggs': map<string, Aggregate>)
    ensures var s := analysis.stockSymbol;
      && keys' == (if s in aggs then keys else keys + [s])
      && aggs' == aggs[s := AddAnalysis(if s in aggs then aggs[s] else EmptyAggregate, analysis)]
  {
    keys', aggs' := keys, aggs;
    var symbol := analysis.stockSymbol;
    if symbol !in aggs' {
      keys' := keys' + [symbol];
      aggs' := aggs'[symbol := EmptyAggregate];
    }
    var agg := aggs'[symbol];
    var direction := analysis.direction;
    var order := agg.directionOrder;
    if direction !in agg.directionCounts {
      order := order + [direction];
    }
    var counts := agg.directionCounts[direction := CountOf(agg.directionCounts, direction) + 1];
    var latest := agg.latestNewsDatetime;
    if latest.None? || analysis.newsPublishedAt > latest.value {
      latest := Some(analysis.newsPublishedAt);
    }
    aggs' := aggs'[symbol := Aggregate(agg.analyses + [analysis], agg.totalBiasScore + analysis.biasScore,
                                       order, counts, latest)];
  }

  /** The first loop of `generate_watchlist`: `stock_aggregates`, a dictionary
      whose keys, in insertion order, are `keys`, and whose value for each
      symbol is the aggregate of that symbol's analyses. */
  method AggregateBySymbol(analyses: seq<AnalysisResult>)
    returns (keys: seq<string>, aggs: map<string, Aggregate>)
    ensures keys == SymbolsInOrder(analyses)
    ensures forall s :: s in aggs <==> s in keys
    ensures forall s :: s in aggs ==> aggs[s] == AggregateOf(Group(analyses, s))
  {
    keys, aggs := [], map[];
    var i := 0;
    while i < |analyses|
      invariant 0 <= i <= |analyses|
      invariant KeysUpTo(analyses, i, keys, aggs)
      invariant AggregatesUpTo(analyses, i, aggs)
    {
      KeysStep(analyses, i, keys, aggs);
      AggregatesStep(analyses, i, keys, aggs);
      keys, aggs := AddToAggregates(keys, aggs, analyses[i]);
      i := i + 1;
    }
    assert analyses[..i] == analyses;
  }

  /** One pass of the second loop of `generate_watchlist`: the entry for
      `symbol`, or `None` where the loop body skips it (`continue`, or a
      `WatchlistItem` that fails validation). */
  method EntryFor(symbol: string, agg: Aggregate, date: string) returns (entry: Option<WatchlistItem>)
    ensures entry == CandidateOf(symbol, agg, date)
  {
    var newsCount := |agg.analyses|;
    if newsCount < MIN_NEWS_COUNT_FOR_WATCHLIST {
      return None;
    }
    var avgBiasScore := agg.totalBiasScore / newsCount as real;
    if agg.directionOrder == [] {
      return None;
    }
    var dominant := agg.directionOrder[ArgMaxFirst(agg.directionOrder, agg.directionCounts)];
    if dominant == NEUTRAL {
      return None;
    }
    var priority := DeterminePriority(avgBiasScore);
    if priority == LOW {
      return None;
    }
    var bestRationale := SortDesc(agg.analyses, AnalysisScore)[0].rationale;
    if agg.latestNewsDatetime.None? {
      return None;
    }
    var made := NewWatchlistItem(symbol, dominant, priority, avgBiasScore, bestRationale, newsCount,
                                 agg.latestNewsDatetime.value, date);
    if made.Failure? {
      return None;
    }
    return Some(made.value);
  }

  /** The second loop of `generate_watchlist`: one entry per key that
      survives, in key order. */
  method BuildEntries(keys: seq<string>, aggs: map<string, Aggregate>, date: string)
    returns (items: seq<WatchlistItem>)
    requires forall s :: s in keys ==> s in aggs
    ensures items == FilterMap(keys, EntryIn(aggs, date))
  {
    items := [];
    var j := 0;
    while j < |keys|
      invariant 0 <= j <= |keys|
      invariant items == FilterMap(keys[..j], EntryIn(aggs, date))
    {
      var symbol := keys[j];
      var entry := EntryFor(symbol, aggs[symbol], date);
      FilterMapPrefixStep(keys, j, EntryIn(aggs, date), entry);
      if entry.Some? {
        items := items + [entry.value];
      }
      j := j + 1;
    }
    assert keys[..j] == keys;
  }

  /** `generate_watchlist`: aggregate, build the entries, sort them by bias
      score (largest first, stable) and keep the configured number. */
  method GenerateWatchlist(svc: Service, analyses: seq<AnalysisResult>, date: string)
    returns (watchlist: seq<WatchlistItem>)
    ensures watchlist == Watchlist(analyses, svc.maxWatchlistSize, date)
    ensures SortedDesc(watchlist, ItemScore)
    ensures svc.maxWatchlistSize >= 0 ==> |watchlist| <= svc.maxWatchlistSize
    ensures Distinct(MapSeq(watchlist, ItemSymbol))
    ensures forall w :: w in watchlist ==>
      w.stockSymbol in SymbolSeq(analyses) && EntryOfGroup(w, Group(analyses, w.stockSymbol), date)
  {
    var keys, aggs := AggregateBySymbol(analyses);
    var items := BuildEntries(keys, aggs, date);
    EntriesOfAggregates(analyses, keys, aggs, date);
    items := SortDesc(items, ItemScore);
    watchlist := Take(items, svc.maxWatchlistSize);

    WatchlistRanked(analyses, svc.maxWatchlistSize, date);
    WatchlistDistinct(analyses, svc.maxWatchlistSize, date);
    forall w | w in watchlist
      ensures w.stockSymbol in SymbolSeq(analyses) && EntryOfGroup(w, Group(analyses, w.stockSymbol), date)
    {
      WatchlistEntries(analyses, svc.maxWatchlistSize, date, w);
    }
  }

  // ---------------------------------------------------------------------------
  // generate_complete_watchlist

  /** The entries of `ws` with direction `d`, in order. */
  function WithDirection(ws: seq<WatchlistItem>, d: Direction): (r: seq<WatchlistItem>)
    ensures |r| <= |ws|
  {
    if ws == [] then []
    else (if ws[0].direction == d then [ws[0]] else []) + WithDirection(ws[1..], d)
  }

  /** The filter keeps exactly the entries with that direction, in their order. */
  lemma {:induction false} WithDirectionFilter(ws: seq<WatchlistItem>, d: Direction)
    ensures IsSubsequence(WithDirection(ws, d), ws)
    ensures forall w :: w in WithDirection(ws, d) <==> w in ws && w.direction == d
  {
    if ws != [] {
      WithDirectionFilter(ws[1..], d);
      var rest := WithDirection(ws[1..], d);
      var r := WithDirection(ws, d);
      if ws[0].direction == d {
        assert r[0] == ws[0] && r[1..] == rest;
      } else {
        assert r == rest;
      }
      assert ws == [ws[0]] + ws[1..];
    }
  }

  /** A watchlist without NEUTRAL entries splits into its bullish and its
      bearish entries. */
  lemma {:induction false} PartitionSizes(ws: seq<WatchlistItem>)
    requires forall w :: w in ws ==> w.direction != NEUTRAL
    ensures |WithDirection(ws, BULLISH)| + |WithDirection(ws, BEARISH)| == |ws|
  {
    if ws != [] {
      assert ws[0] in ws;
      assert forall w :: w in ws[1..] ==> w in ws;
      PartitionSizes(ws[1..]);
    }
  }

  datatype Metadata = Metadata(
    generatedAt: string,
    totalNewsFetched: nat,
    totalAnalyzed: nat,
    watchlistSize: nat,
    bullishCount: Option<nat>,
    bearishCount: Option<nat>)

  /** The dictionary `generate_complete_watchlist` returns; the two short-circuit
      envelopes have no `bullish_stocks`, `bearish_stocks` or direction counts. */
  datatype Report = Report(
    watchlist: seq<WatchlistItem>,
    bullishStocks: Option<seq<WatchlistItem>>,
    bearishStocks: Option<seq<WatchlistItem>>,
    metadata: Metadata)

  /** `generate_complete_watchlist`: fetch, analyse, aggregate, and wrap the
      result; no news, or no analysis, short-circuits to an empty watchlist. */
  method GenerateCompleteWatchlist(svc: Service, sched: Schedules,
                                   fetched: Option<seq<ZerodhaScraper.NewsData>>, date: string)
    returns (report: Report)
    requires ValidSchedules(sched)
    ensures var news := FetchedNews(fetched);
      news == [] ==> report == Report([], None, None, Metadata(date, 0, 0, 0, None, None))
    ensures var news := FetchedNews(fetched);
      news != [] && PipelineAnalyses(svc, sched, news) == [] ==>
        report == Report([], None, None, Metadata(date, |news|, 0, 0, None, None))
    ensures var news := FetchedNews(fetched);
      var analyses := PipelineAnalyses(svc, sched, news);
      news != [] && analyses != [] ==>
        && report.watchlist == Watchlist(analyses, svc.maxWatchlistSize, date)
        && report.bullishStocks == Some(WithDirection(report.watchlist, BULLISH))
        && report.bearishStocks == Some(WithDirection(report.watchlist, BEARISH))
        && report.metadata == Metadata(date, |news|, |analyses|, |report.watchlist|,
             Some(|report.bullishStocks.value|), Some(|report.bearishStocks.value|))
        && report.metadata.bullishCount.value + report.metadata.bearishCount.value == report.metadata.watchlistSize
  {
    var newsItems, _ := FetchAllNews(fetched);
    if newsItems == [] {
      return Report([], None, None, Metadata(date, 0, 0, 0, None, None));
    }
    var analyses, _ := AnalyzeAllNews(svc, sched, newsItems);
    if analyses == [] {
      return Report([], None, None, Metadata(date, |newsItems|, 0, 0, None, None));
    }
    var watchlist := GenerateWatchlist(svc, analyses, date);
    var bullish := WithDirection(watchlist, BULLISH);
    var bearish := WithDirection(watchlist, BEARISH);
    PartitionSizes(watchlist);
    report := Report(watchlist, Some(bullish), Some(bearish),
                     Metadata(date, |newsItems|, |analyses|, |watchlist|, Some(|bullish|), Some(|bearish|)));
  }
}
