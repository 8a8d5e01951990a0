# Pre-market watchlist suggester — a Dafny model of its core

The system builds a daily intraday watchlist for Indian equities:

1. It reads the Zerodha Pulse RSS feeds and cleans each entry's title and content.
2. It drops duplicate titles and validates each entry as a `NewsItem`.
3. It asks a language model for the stock symbol of each item that lacks one. This runs on a thread pool.
4. It asks the model to analyse each item that has a symbol: event type, direction, impact strength and confidence. This also runs on a thread pool. It validates the reply and builds an `AnalysisResult` with `bias_score = impact_strength * confidence`.
5. It groups the analyses by symbol. For each symbol it keeps the dominant direction, the average bias score, the best rationale and the latest publication time. It drops NEUTRAL and LOW-priority symbols, ranks the rest by average bias score and cuts the list to the maximum watchlist size.
6. It wraps the watchlist in a report with bullish and bearish sub-lists and counts.

The model follows the code's own structure.

- Collection loops (fetch, extract, analyse, aggregate, the watchlist loop, feed parsing and de-duplication) are Dafny `method`s with loop invariants. Each is proved against a specification function.
- The pydantic models, validators, prompt formatting, priority rule, chunking, text sanitising and provider dispatch are functions and lemmas.
- The thread pools are modelled by schedules. A schedule is a function that reorders a sequence, keeping its multiset. The result lists are collected in completion order. It is proved that the order changes where each analysis sits, never which analyses there are.

Modules:

- `Wrappers` (Option/Result) and `PyStr` (Python's `strip`, `upper`, `lower`, `split`, `[:n]`) are helpers.
- `SeqUtil` holds generic sequence lemmas: stable descending sort, first-seen order, filter-map, reorderings.
- `Models`, `Constants`, `Utils`, `Prompts`, `LlmClient`, `ZerodhaScraper` and `Services` follow the source files of the same names.
- `WatchlistSpec` is the value-level specification of `generate_watchlist`. Per symbol, the loop's aggregate equals a fold over that symbol's group of analyses. The watchlist is the stable descending sort of the candidates, cut to the maximum size.

Details the code decides, and the model follows:

- Duplicate detection compares the sanitised titles exactly. It does not trim or fold case.
- An impact or confidence out of range rejects the reply. It is not clamped.
- Ties for the dominant direction go to the direction seen first in the symbol's analyses, because `max` scans the dict in insertion order. They do not go to the enum order.
- Ties in bias score keep the aggregation order, because Python's sort is stable.

## Model

| member | source | states |
|---|---|---|
| `Models.ParseDirection` | src/python/shared_layer/models.py:14-19 | a string names a direction exactly when it is one of the enum values, and parsing gives back that value |
| `Models.ParseEventType` | src/python/shared_layer/models.py:21-28 | the same for the event-type enum |
| `Models.ValidateEventType` | src/python/shared_layer/models.py:135-141 | an exact (case-sensitive) event type is kept and anything else becomes "Other"; the result is always a valid event type |
| `Models.ValidateDirection` | src/python/shared_layer/models.py:143-150 | the upper-cased value is kept when it is a direction; anything else becomes NEUTRAL; the result is always valid |
| `Models.DirectionValueIsUpper` | src/python/shared_layer/models.py:14-19 | every direction value is already upper case |
| `Models.ValidatorsIdempotent` | src/python/shared_layer/models.py:135-150 | validating a validated value changes nothing, for both validators |
| `Models.ValidatorsAndCase` | src/python/shared_layer/models.py:135-150 | the direction validator ignores letter case while the event-type one does not ("earnings" becomes "Other", "bullish" becomes "BULLISH") |
| `Models.NewLlmAnalysisResponse` | src/python/shared_layer/models.py:127-150 | the response validates exactly when impact is in 1..5 and confidence in 0..1; on success the fields are the validated ones; on failure each out-of-range field, and only those, is reported |
| `Models.ProductInRange` | src/python/shared_layer/models.py:68-71 | an in-range impact times an in-range confidence lies in the bias-score range 0..5 |
| `Models.BuildAnalysisResult` | src/python/shared_layer/models.py:61-92 | an `AnalysisResult` is built exactly when the symbol is present and at most 20 characters, impact, confidence and rationale length are in range, and the bias score is in 0..5; the symbol is upper-cased |
| `Models.ResolveBias` | src/python/shared_layer/models.py:82-87 | a supplied bias score is kept; an absent one is the product of impact and confidence |
| `Models.BiasScoreDerived` | src/python/shared_layer/models.py:82-87 | with the corrected validator, omitting the bias score of otherwise valid fields yields a result whose bias score is impact times confidence |
| `Models.BiasScoreMissingAsWritten` | src/python/shared_layer/models.py:71-87 | as written, omitting the required bias score always fails validation; the corrected reading turns INFY, impact 4, confidence 0.75 into bias score 3.0 |
| `Models.BiasReadingsAgreeWhenSupplied` | src/python/shared_layer/models.py:82-87 | when the bias score is supplied (a number or an explicit None) the as-written and corrected readings agree |
| `Models.NewsSymbolUppercased` | src/python/shared_layer/models.py:53-58 | a news item's symbol is stored upper-cased; an absent one stays absent |
| `Models.NewNewsItem` | src/python/shared_layer/models.py:37-58 | a `NewsItem` validates exactly when the title has 1..500 characters, the content is non-empty and the symbol is at most 20 characters; all fields are kept except the symbol, which is upper-cased |
| `Models.NewWatchlistItem` | src/python/shared_layer/models.py:95-117 | a `WatchlistItem` validates exactly when the symbol is at most 20 characters, the bias score is in 0..5, the reason has 1..200 characters and the news count is at least 1; the symbol is upper-cased and the sector is empty |
| `Utils.DeterminePriority` | src/python/shared_layer/utils.py:17-31 | HIGH exactly at or above 2.5, MEDIUM exactly in [1.5, 2.5), LOW exactly below 1.5 |
| `Utils.PriorityMonotone` | src/python/shared_layer/utils.py:17-31 | a higher bias score never gets a lower priority |
| `Utils.ChunkList` | src/python/shared_layer/utils.py:192-202 | a chunk size of 0 is an error (the range step raises); a negative size gives no chunks; a positive size gives the consecutive chunks |
| `Utils.ChunkSizes` | src/python/shared_layer/utils.py:192-202 | every chunk has 1..k elements, and every chunk but the last has exactly k |
| `Utils.FlattenChunks` | src/python/shared_layer/utils.py:192-202 | concatenating the chunks gives back the list |
| `Utils.CollapseWhitespace` | src/python/shared_layer/utils.py:163-164 | the result is no longer than the input, its only whitespace is the plain blank, and it starts with a blank exactly when the input starts with whitespace |
| `Utils.CollapseKeepsText` | src/python/shared_layer/utils.py:163-164 | collapsing keeps every non-whitespace character, in order |
| `Utils.CollapseAppend` | src/python/shared_layer/utils.py:163-164 | text that ends in a non-whitespace character collapses independently of what follows it |
| `Utils.CollapseRun` | src/python/shared_layer/utils.py:163-164 | a whitespace run between non-whitespace text becomes exactly one blank |
| `Utils.CollapseResultCollapsed` | src/python/shared_layer/utils.py:163-164 | the collapsed text has no two adjacent spaces |
| `Utils.CollapseIdempotent` | src/python/shared_layer/utils.py:163-164 | collapsing twice is collapsing once |
| `Utils.RemoveSpecial` | src/python/shared_layer/utils.py:166-167 | only word characters, whitespace and the kept punctuation remain, and text whose whitespace is all blanks keeps that property |
| `Utils.RemoveSpecialFilter` | src/python/shared_layer/utils.py:166-167 | removal is a per-character filter: it distributes over concatenation and keeps a single character exactly when it is allowed |
| `Utils.RemoveSpecialKeepsAllowed` | src/python/shared_layer/utils.py:166-167 | text made only of allowed characters is unchanged |
| `Utils.SanitizeText` | src/python/shared_layer/utils.py:152-169 | the sanitised text is no longer than the input, has no leading or trailing space, and holds only spaces, word characters and kept punctuation |
| `Utils.SanitizeKeepsText` | src/python/shared_layer/utils.py:152-169 | sanitising loses no content: with whitespace ignored, the result is exactly the input's allowed characters, in order |
| `Utils.SanitizeClean` | src/python/shared_layer/utils.py:152-169 | text that is already clean (single blanks only, no leading or trailing space, only allowed characters) comes back unchanged |
| `Utils.SanitizeCanLeaveDoubleSpace` | src/python/shared_layer/utils.py:152-169 | because the collapse runs before the removal, "a @ b" sanitises to "a  b", which holds a double space |
| `Utils.FormatApiResponse` | src/python/shared_layer/utils.py:47-83 | the status code and CORS headers are passed through; the body always has "success", has "data" exactly when data is given and "error" exactly when an error is given, and nothing else |
| `Prompts.Render` | src/python/shared_layer/ai/prompts.py:79-83 | a template renders exactly when every placeholder is bound |
| `Prompts.RenderTwoFields` | src/python/shared_layer/ai/prompts.py:150-153 | a two-placeholder template renders to its text with the two values spliced in |
| `Prompts.RenderThreeFields` | src/python/shared_layer/ai/prompts.py:79-83 | a three-placeholder template renders to its text with the three values spliced in |
| `Prompts.SymbolOrUnknown` | src/python/shared_layer/ai/prompts.py:80 | a missing or empty symbol is shown as "Unknown", any other symbol as itself |
| `Prompts.FormatAnalysisPrompt` | src/python/shared_layer/ai/prompts.py:68-83 | the analysis prompt is the template rendered with the symbol (or "Unknown"), the title cut to 500 and the content cut to 2000 characters |
| `Prompts.FormatCombinedAnalysisPrompt` | src/python/shared_layer/ai/prompts.py:140-153 | the combined prompt is its template rendered with the cut title and content |
| `Prompts.TruncatedFields` | src/python/shared_layer/ai/prompts.py:81-82 | the cut title and content are the prefixes of length min(limit, length), and a title within the limit is unchanged |
| `Prompts.AnalysisPromptLayout` | src/python/shared_layer/ai/prompts.py:19-83 | the analysis prompt is the fixed text interleaved with the symbol, the title prefix and the content prefix |
| `Prompts.CombinedPromptLayout` | src/python/shared_layer/ai/prompts.py:87-153 | the combined prompt is the fixed text interleaved with the title prefix and the content prefix |
| `Prompts.AnalysisPromptBounded` | src/python/shared_layer/ai/prompts.py:68-83 | the analysis prompt's length is bounded whatever the length of the news |
| `Prompts.CombinedPromptBounded` | src/python/shared_layer/ai/prompts.py:140-153 | the same bound for the combined prompt |
| `LlmClient.IsInferenceProfile` | src/python/shared_layer/ai/llm_client.py:31-47 | an id is an inference profile exactly when it starts with "us.", "eu." or "ap." |
| `LlmClient.NewClient` | src/python/shared_layer/ai/llm_client.py:31-47 | the client keeps the model id and records whether it is an inference profile |
| `LlmClient.BaseModelProvider` | src/python/shared_layer/ai/llm_client.py:49-66 | the provider is the second dot-separated part of a profile id (the whole id when it has no dot) and the first part otherwise; it never contains a dot |
| `LlmClient.ProviderOfProfile` | src/python/shared_layer/ai/llm_client.py:55-62 | for `region.provider.model` the provider is the middle part |
| `LlmClient.ProviderOfModelId` | src/python/shared_layer/ai/llm_client.py:63-66 | for `provider.model` without a region prefix the provider is the first part |
| `LlmClient.HandlerFor` | src/python/shared_layer/ai/llm_client.py:85-98 | meta, amazon, ai21 and cohere each select their own request format; every other provider, "anthropic" included, selects the Claude format |
| `LlmClient.AnalyzeNews` | src/python/shared_layer/ai/llm_client.py:68-102 | the reply is the one from the handler chosen by the id's provider |
| `LlmClient.ExtractAndAnalyze` | src/python/shared_layer/ai/llm_client.py:104-138 | a failed call fails; a missing, falsy or "null" (any case) symbol gives no result; otherwise the reply is returned with only its symbol replaced by the upper-cased form |
| `LlmClient.FoundSymbolNormalised` | src/python/shared_layer/ai/llm_client.py:125-131 | a returned reply has a non-empty upper-case symbol other than "NULL" and keeps every other key unchanged |
| `ZerodhaScraper.EntryContent` | src/python/shared_layer/scrapers/zerodha_scraper.py:59-65 | a description shorter than 20 characters is replaced by the title; a longer one is appended as "title. description" |
| `ZerodhaScraper.EntryToNews` | src/python/shared_layer/scrapers/zerodha_scraper.py:47-92 | a mapped entry comes from Zerodha, has no symbol and keeps the entry's link |
| `ZerodhaScraper.EntryToNewsFields` | src/python/shared_layer/scrapers/zerodha_scraper.py:47-92 | an entry is skipped exactly when its stripped title or its link is empty; otherwise title and content are sanitised and the date falls back to the current time |
| `ZerodhaScraper.EntriesToNewsShape` | src/python/shared_layer/scrapers/zerodha_scraper.py:45-93 | every item parsed from a feed comes from Zerodha, has no symbol and has a link |
| `ZerodhaScraper.ParseZerodhaFeed` | src/python/shared_layer/scrapers/zerodha_scraper.py:25-103 | the items are the mapped entries among the first `max_items` entries, in feed order, so there are at most `max_items` of them |
| `ZerodhaScraper.DedupeByTitle` | src/python/shared_layer/scrapers/zerodha_scraper.py:123-130 | the loop keeps exactly the specified de-duplication of the list |
| `ZerodhaScraper.DedupAppend` | src/python/shared_layer/scrapers/zerodha_scraper.py:126-130 | one loop step: an item is appended exactly when its title is non-empty and not seen before |
| `ZerodhaScraper.DedupDistinct` | src/python/shared_layer/scrapers/zerodha_scraper.py:123-130 | the kept items have non-empty, pairwise different titles |
| `ZerodhaScraper.DedupSubsequence` | src/python/shared_layer/scrapers/zerodha_scraper.py:123-130 | the kept items are a subsequence of the input, in input order |
| `ZerodhaScraper.DedupKeepsFirstOccurrences` | src/python/shared_layer/scrapers/zerodha_scraper.py:123-130 | the first item with a given non-empty title is always kept |
| `ZerodhaScraper.DedupTitles` | src/python/shared_layer/scrapers/zerodha_scraper.py:123-130 | no title is lost: the kept titles are all the non-empty input titles |
| `ZerodhaScraper.FirstWithTitle` | src/python/shared_layer/scrapers/zerodha_scraper.py:126-130 | the index found holds the title and no earlier item does |
| `ZerodhaScraper.AllFeedItemsShape` | src/python/shared_layer/scrapers/zerodha_scraper.py:111-121 | every item gathered from the feeds comes from Zerodha and has no symbol |
| `ZerodhaScraper.FetchNews` | src/python/shared_layer/scrapers/zerodha_scraper.py:105-133 | the feeds are parsed and concatenated in order, de-duplicated by title and cut to `max_items`; the result has at most `max_items` items with distinct non-empty titles, from Zerodha and without symbols |
| `ZerodhaScraper.FetchedNewsShape` | src/python/shared_layer/scrapers/zerodha_scraper.py:123-133 | the bound, distinct-title and provenance facts for the de-duplicated, cut list |
| `WatchlistSpec.Group` | src/python/shared_layer/services.py:341-345 | a symbol's group holds only that symbol's analyses, and is empty exactly when the symbol never occurs |
| `WatchlistSpec.GroupMembers` | src/python/shared_layer/services.py:341-345 | every analysis of a group is one of the analyses |
| `WatchlistSpec.SumBias` | src/python/shared_layer/services.py:346 | the summed bias scores of a group lie between 0 and 5 times its size |
| `WatchlistSpec.AggregateTotals` | src/python/shared_layer/services.py:341-346 | the aggregate of a group lists its analyses in order and holds their total bias score |
| `WatchlistSpec.AggregateDirectionOrder` | src/python/shared_layer/services.py:347 | the direction counter lists the directions in first-seen order, and holds exactly the directions that occur |
| `WatchlistSpec.AggregateDirectionCount` | src/python/shared_layer/services.py:347 | each direction's count is the number of the group's analyses with that direction |
| `WatchlistSpec.AggregateLatest` | src/python/shared_layer/services.py:349-350 | the latest time is set exactly when the group is non-empty, and is then the greatest publication time in it |
| `WatchlistSpec.DominantUnique` | src/python/shared_layer/services.py:372 | the dominant direction of a group (a maximal count, first seen among the maximal ones) is unique |
| `WatchlistSpec.DominantOfAggregate` | src/python/shared_layer/services.py:368-372 | `max(directions, key=directions.get)` over the aggregate picks the group's dominant direction |
| `WatchlistSpec.AverageBounds` | src/python/shared_layer/services.py:365 | the average bias score lies in 0..5 |
| `WatchlistSpec.CandidateOfAggregate` | src/python/shared_layer/services.py:357-404 | an aggregate yields an item exactly when its dominant direction is not NEUTRAL and its average reaches the MEDIUM threshold; the item carries the average, its priority, the rationale of the highest bias score, the count, the latest time and the date |
| `WatchlistSpec.CandidateOfGroupExists` | src/python/shared_layer/services.py:357-404 | a symbol's group yields an item exactly when its average bias score is at least 1.5 and its dominant direction is not NEUTRAL |
| `WatchlistSpec.CandidateOfGroup` | src/python/shared_layer/services.py:386-404 | the item built for a group carries that symbol and agrees with the group on every field |
| `WatchlistSpec.EntriesOfAggregates` | src/python/shared_layer/services.py:356-410 | building items from the loop's aggregates gives the same list as building them from the groups |
| `WatchlistSpec.CandidateFacts` | src/python/shared_layer/services.py:356-410 | every candidate's symbol occurs in the analyses and the candidate agrees with its group |
| `WatchlistSpec.CandidateExists` | src/python/shared_layer/services.py:356-410 | a symbol that occurs has a candidate exactly when its average is at least 1.5 and its dominant direction is not NEUTRAL |
| `WatchlistSpec.CandidateSymbols` | src/python/shared_layer/services.py:356-410 | candidates come in first-seen symbol order, one per symbol at most |
| `WatchlistSpec.WatchlistRanked` | src/python/shared_layer/services.py:412-416 | the watchlist is sorted by descending bias score, is a prefix of the sorted candidates of length min(max size, number of candidates), and the sort is a permutation |
| `WatchlistSpec.WatchlistDistinct` | src/python/shared_layer/services.py:356-416 | no symbol appears twice in the watchlist |
| `WatchlistSpec.CandidatesStable` | src/python/shared_layer/services.py:413 | items with equal bias scores keep their relative order through the sort |
| `WatchlistSpec.WatchlistEntries` | src/python/shared_layer/services.py:324-419 | every watchlist item's symbol occurs in the analyses and the item agrees with its group |
| `WatchlistSpec.AggregatesStep` | src/python/shared_layer/services.py:341-350 | one pass of the aggregation loop keeps every symbol's aggregate equal to the fold over its group so far |
| `Services.ToNewsItem` | src/python/shared_layer/services.py:57-62 | a scraped dictionary becomes a `NewsItem` exactly when it validates, keeping title, content and date |
| `Services.FetchAllNews` | src/python/shared_layer/services.py:36-69 | the valid items in scraper order; each invalid one counts one error, and a failing scraper counts one error and yields nothing |
| `Services.ExtractSymbolForItem` | src/python/shared_layer/services.py:145-172 | only the symbol changes; an item with a symbol is untouched; one without takes the first extracted symbol, and keeps none when nothing is extracted |
| `Services.WithSymbolsMembers` | src/python/shared_layer/services.py:196-200 | an item is kept exactly when it has a non-empty symbol |
| `Services.ExtractSymbolsParallel` | src/python/shared_layer/services.py:175-205 | the result is the items with a symbol in the pool's completion order: the same multiset as in submission order, never more than the input |
| `Services.DecodeAnalysis` | src/python/shared_layer/services.py:233 | a reply decodes exactly when it has the five fields with their JSON types (an integer or real confidence); a decoded reply carries each field of the JSON reply, a whole-number confidence read as a real; a confidence given as a string is not accepted here (pydantic's coercion of numeric strings and of whole floats is not modelled, see Left out) |
| `Services.ResultFromResponse` | src/python/shared_layer/services.py:236-246 | the `AnalysisResult` exists exactly when the ranges, the rationale length and the item's symbol fit; it has the upper-cased symbol, the item's date, and bias score = impact times confidence |
| `Services.AnalysisFromReply` | src/python/shared_layer/services.py:207-257 | an item is analysed exactly when the reply is accepted; the result's direction and event type are the validated ones and its bias score is impact times confidence |
| `Services.CollectAnalyses` | src/python/shared_layer/services.py:304-314 | every outcome is counted once, as analysed or as an error, and only the analyses are kept, in arrival order |
| `Services.CompletionOrderIrrelevant` | src/python/shared_layer/services.py:188-205 | whatever order the two pools finish in, the analyses are the same multiset as in submission order |
| `Services.AnalyzeAllNews` | src/python/shared_layer/services.py:260-321 | empty input or no item with a symbol gives no analyses; otherwise the analyses of the items with symbols, in completion order; analysed plus errors equals the items with symbols, which is at most the total |
| `Services.AddToAggregates` | src/python/shared_layer/services.py:342-350 | one analysis is added to its symbol's aggregate, and a new symbol is appended to the key order |
| `Services.AggregateBySymbol` | src/python/shared_layer/services.py:334-350 | the keys are the symbols in first-seen order and each aggregate is the fold over that symbol's group |
| `Services.EntryFor` | src/python/shared_layer/services.py:357-406 | the loop body yields the specified candidate of an aggregate, or skips it |
| `Services.BuildEntries` | src/python/shared_layer/services.py:352-410 | the items are the candidates of the aggregates in key order |
| `Services.GenerateWatchlist` | src/python/shared_layer/services.py:324-419 | the watchlist equals the specified one: sorted by descending bias score, at most the maximum size, one item per symbol, each item agreeing with its symbol's analyses |
| `Services.WithDirection` | src/python/shared_layer/services.py:466-467 | the items with one direction are never more than the watchlist |
| `Services.WithDirectionFilter` | src/python/shared_layer/services.py:466-467 | the bullish (bearish) list is the bullish (bearish) watchlist items, in watchlist order |
| `Services.PartitionSizes` | src/python/shared_layer/services.py:466-487 | with no NEUTRAL item, the bullish and bearish counts add up to the watchlist size |
| `Services.GenerateCompleteWatchlist` | src/python/shared_layer/services.py:422-496 | no news gives the empty report with zero counts; news but no analyses gives the empty report with the fetched count; otherwise the watchlist with its bullish and bearish sub-lists and counts that add up to its size |

## Left out

- Threads: each `ThreadPoolExecutor` is modelled by a schedule that reorders its results. The pool size (`max_workers`) does not affect the results and is not modelled.
- Bedrock and the five `_analyze_with_*` request builders are a function parameter (`invoke`) of the client. The JSON they return is a parsed `Json` value.
- `extract_stock_symbols` and `extract_stock_symbols_with_llm` (prompting, JSON parsing, the symbol list's filtering) are a function parameter (`extract`) that returns a list of strings. List elements that are not strings are not modelled.
- `analyze_news_item` is not part of this model. The pipeline never calls it; it uses `_analyze_single_item`.
- feedparser and the network: a feed is the sequence of its parsed entries, and an unreachable feed is an empty one. The `bozo` warning is logging only.
- The clock: `datetime.utcnow()` is a `now` parameter. The three calls to `get_current_date_ist()` in one report are a single `date` parameter. Timestamps are integers.
- The environment: `get_env_variable`, the model id and the maximum watchlist size are parameters. `is_market_hours` is not part of this model.
- The system prompt is a parameter. The two user-prompt templates are reproduced as fixed text around their placeholders.
- Floating point: bias scores, confidences and averages are Dafny `real`s, so rounding is not modelled.
- Identifiers and bookkeeping fields: `uuid` ids, `news_id`, `created_at`, `analyzed_at`, `dedup_hash` and `sector` (always `None` here).
- Serialisation: `serialize_item`, `.dict()` and ISO dates are not modelled. The report carries the watchlist items themselves.
- Logging, tracing and the outer `try/except` that re-raises in `generate_complete_watchlist`.
- `Services.DecodeAnalysis`: pydantic's lax coercion is modelled only for an integer confidence read as a float. Numeric strings such as "0.8" and whole floats such as 4.0 for the impact, which pydantic would coerce, are rejected by the model.
- Unicode: `\w` in `sanitize_text` and `upper`/`lower` cover ASCII letters, digits and `_` only. Whitespace (`\s`, `strip`) covers the characters below U+0100 that Python's `str.isspace` accepts, U+0085 and U+00A0 included. The other Unicode spaces (U+1680, U+2000 to U+200A, U+2028, U+2029, U+202F, U+205F, U+3000) are not whitespace in the model.
- `Services.GenerateWatchlist`: the in-place `list.sort` is modelled as a value-level stable insertion sort (`SortDesc`) plus a slice, not as an in-place array algorithm.
- `Services.FetchAllNews`, `Services.GenerateCompleteWatchlist`: the scraper's output is a parameter (`fetched`, with `None` for a scraper that raises). Nothing ties it to `ZerodhaScraper.FetchNews`, so the scraper's de-duplication and `max_items` cap are not carried into the contracts of the service and the report.
- The `base_scraper` module and the Lambda handlers are not part of this model.

## Findings

| source | as written | input that shows it | evidently intended | confidence | as-written member | corrected member |
|---|---|---|---|---|---|---|
| src/python/shared_layer/models.py:71-87 | `bias_score` is a required field (`...`), and pydantic does not run the `always=True` validator for a missing required field, so an `AnalysisResult` built without a bias score fails validation | INFY, impact 4, confidence 0.75, rationale "Good results", bias score omitted | the validator's docstring says the score is calculated when it is not provided: bias score 3.0 | not executed | `Models.BiasScoreMissingAsWritten` | `Models.BiasScoreDerived` |
