/** The records of the watchlist pipeline and the validation rules their
    constructors apply: enum defaulting for the language-model response,
    upper-case stock symbols, range and length checks, and the derivation of
    the bias score. A constructor either yields a valid record or fails with
    the names of the offending fields. */
module Models {
  import opened Wrappers
  import opened PyStr

  /** A point in time; the pipeline only compares them. */
  type Timestamp = int

  datatype NewsSource = ZERODHA

  datatype Direction = BULLISH | BEARISH | NEUTRAL

  datatype EventType = Earnings | Order | Regulatory | Macro | Other

  datatype Priority = HIGH | MEDIUM | LOW

  function DirectionValue(d: Direction): string {
    match d
    case BULLISH => "BULLISH"
    case BEARISH => "BEARISH"
    case NEUTRAL => "NEUTRAL"
  }

  function EventTypeValue(e: EventType): string {
    match e
    case Earnings => "Earnings"
    case Order => "Order"
    case Regulatory => "Regulatory"
    case Macro => "Macro"
    case Other => "Other"
  }

  /** `Direction(v)`: the member whose value is `v`, if any. */
  function ParseDirection(v: string): (r: Option<Direction>)
    ensures r.Some? ==> DirectionValue(r.value) == v
    ensures r.None? ==> forall d :: DirectionValue(d) != v
  {
    if v == "BULLISH" then Some(BULLISH)
    else if v == "BEARISH" then Some(BEARISH)
    else if v == "NEUTRAL" then Some(NEUTRAL)
    else None
  }

  /** `EventType(v)`: the member whose value is `v`, if any. */
  function ParseEventType(v: string): (r: Option<EventType>)
    ensures r.Some? ==> EventTypeValue(r.value) == v
    ensures r.None? ==> forall e :: EventTypeValue(e) != v
  {
    if v == "Earnings" then Some(Earnings)
    else if v == "Order" then Some(Order)
    else if v == "Regulatory" then Some(Regulatory)
    else if v == "Macro" then Some(Macro)
    else if v == "Other" then Some(Other)
    else None
  }

  // ---------------------------------------------------------------------------
  // LLMAnalysisResponse

  predicate ImpactInRange(impact: int) { 1 <= impact <= 5 }

  predicate ConfidenceInRange(confidence: real) { 0.0 <= confidence <= 1.0 }

  /** The fields of the language model's reply, before validation. */
  datatype RawAnalysis = RawAnalysis(
    eventType: string, direction: string, impactStrength: int, confidence: real, rationale: string)

  datatype LlmAnalysisResponse = LlmAnalysisResponse(
    eventType: string, direction: string, impactStrength: int, confidence: real, rationale: string)

  /** The `event_type` validator: an exact (case-sensitive) tag is kept, anything
      else becomes "Other". */
  function ValidateEventType(v: string): (r: string)
    ensures ParseEventType(r).Some?
    ensures ParseEventType(v).Some? ==> r == v
    ensures ParseEventType(v).None? ==> r == EventTypeValue(Other)
  {
    if ParseEventType(v).Some? then v else EventTypeValue(Other)
  }

  /** The `direction` validator: the upper-cased value if that is a direction,
      "NEUTRAL" otherwise. */
  function ValidateDirection(v: string): (r: string)
    ensures ParseDirection(r).Some?
    ensures ParseDirection(Upper(v)).Some? ==> r == Upper(v)
    ensures ParseDirection(Upper(v)).None? ==> r == DirectionValue(NEUTRAL)
  {
    var upper := Upper(v);
    if ParseDirection(upper).Some? then upper else DirectionValue(NEUTRAL)
  }

  lemma DirectionValueIsUpper(d: Direction)
    ensures Upper(DirectionValue(d)) == DirectionValue(d)
  {
    UpperOfUpperCase(DirectionValue(d));
  }

  /** Both validators are idempotent: a validated value passes through unchanged. */
  lemma ValidatorsIdempotent(v: string)
    ensures ValidateEventType(ValidateEventType(v)) == ValidateEventType(v)
    ensures ValidateDirection(ValidateDirection(v)) == ValidateDirection(v)
  {
    var d := ParseDirection(ValidateDirection(v)).value;
    DirectionValueIsUpper(d);
  }

  /** The direction validator ignores letter case, the event-type validator does not. */
  lemma ValidatorsAndCase(v: string)
    ensures ValidateDirection(Lower(v)) == ValidateDirection(v)
    ensures ValidateEventType("earnings") == "Other" && ValidateDirection("bullish") == "BULLISH"
  {
    UpperLower(v);
    assert Upper("bullish") == "BULLISH";
  }

  /** Building an `LLMAnalysisResponse`: out-of-range impact or confidence is
      rejected (never clamped); the two enum-like strings are normalised. */
  function NewLlmAnalysisResponse(raw: RawAnalysis): (r: Result<LlmAnalysisResponse>)
    ensures r.Success? <==> ImpactInRange(raw.impactStrength) && ConfidenceInRange(raw.confidence)
    ensures r.Success? ==> r.value == LlmAnalysisResponse(
      ValidateEventType(raw.eventType), ValidateDirection(raw.direction),
      raw.impactStrength, raw.confidence, raw.rationale)
    ensures r.Failure? ==>
      && ("impact_strength" in r.fields <==> !ImpactInRange(raw.impactStrength))
      && ("confidence" in r.fields <==> !ConfidenceInRange(raw.confidence))
  {
    var errors :=
      (if ImpactInRange(raw.impactStrength) then [] else ["impact_strength"]) +
      (if ConfidenceInRange(raw.confidence) then [] else ["confidence"]);
    if errors == [] then
      Success(LlmAnalysisResponse(
        ValidateEventType(raw.eventType), ValidateDirection(raw.direction),
        raw.impactStrength, raw.confidence, raw.rationale))
    else
      Failure(errors)
  }

  // ---------------------------------------------------------------------------
  // AnalysisResult

  datatype AnalysisRecord = AnalysisRecord(
    stockSymbol: string, eventType: EventType, direction: Direction,
    impactStrength: int, confidence: real, rationale: string,
    biasScore: real, newsPublishedAt: Timestamp)

  predicate IsSymbol(s: string) { |s| <= 20 && Upper(s) == s }

  predicate ValidAnalysis(a: AnalysisRecord) {
    && IsSymbol(a.stockSymbol)
    && ImpactInRange(a.impactStrength)
    && ConfidenceInRange(a.confidence)
    && 1 <= |a.rationale| <= 200
    && 0.0 <= a.biasScore <= 5.0
  }

  /** An `AnalysisResult` that passed validation; the pipeline never changes one afterwards. */
  type AnalysisResult = a: AnalysisRecord | ValidAnalysis(a)
    witness AnalysisRecord("", Other, NEUTRAL, 1, 0.0, "-", 0.0, 0)

  /** How the caller supplied `bias_score`: left out, passed as `None`, or given. */
  datatype BiasInput = Missing | Null | Given(score: real)

  lemma ProductInRange(impact: int, confidence: real)
    requires ImpactInRange(impact) && ConfidenceInRange(confidence)
    ensures 0.0 <= impact as real * confidence <= 5.0
  {
    assert impact as real * confidence <= impact as real * 1.0;
  }

  /** The `calculate_bias_score` validator as it behaves: it only runs on a value
      that is present, so an omitted `bias_score` is a missing required field. */
  function ResolveBiasAsWritten(bias: BiasInput, impact: int, confidence: real): Option<real>
  {
    match bias
    case Missing => None
    case Null =>
      if ImpactInRange(impact) && ConfidenceInRange(confidence) then Some(impact as real * confidence) else None
    case Given(v) => Some(v)
  }

  /** The bias score as the validator's docstring intends it: the product of
      impact and confidence whenever no score is supplied. */
  function ResolveBias(bias: BiasInput, impact: int, confidence: real): (r: Option<real>)
    ensures bias.Given? ==> r == Some(bias.score)
    ensures !bias.Given? && ImpactInRange(impact) && ConfidenceInRange(confidence) ==>
      r == Some(impact as real * confidence)
  {
    match bias
    case Given(v) => Some(v)
    case _ =>
      if ImpactInRange(impact) && ConfidenceInRange(confidence) then Some(impact as real * confidence) else None
  }

  /** The field checks of `AnalysisResult`, given the bias score after its validator ran. */
  function BuildAnalysisResult(
    symbol: Option<string>, eventType: EventType, direction: Direction, impact: int,
    confidence: real, rationale: string, bias: Option<real>, publishedAt: Timestamp): (r: Result<AnalysisResult>)
    ensures r.Success? <==>
      && symbol.Some? && |symbol.value| <= 20
      && ImpactInRange(impact) && ConfidenceInRange(confidence)
      && 1 <= |rationale| <= 200
      && bias.Some? && 0.0 <= bias.value <= 5.0
    ensures r.Success? ==> r.value == AnalysisRecord(
      Upper(symbol.value), eventType, direction, impact, confidence, rationale, bias.value, publishedAt)
  {
    var errors :=
      (if symbol.Some? && |symbol.value| <= 20 then [] else ["stock_symbol"]) +
      (if ImpactInRange(impact) then [] else ["impact_strength"]) +
      (if ConfidenceInRange(confidence) then [] else ["confidence"]) +
      (if 1 <= |rationale| <= 200 then [] else ["rationale"]) +
      (if bias.Some? && 0.0 <= bias.value <= 5.0 then [] else ["bias_score"]);
    if errors == [] then
      UpperIdempotent(symbol.value);
      Success(AnalysisRecord(Upper(symbol.value), eventType, direction, impact, confidence, rationale, bias.value, publishedAt))
    else
      Failure(errors)
  }

  function NewAnalysisResultAsWritten(
    symbol: Option<string>, eventType: EventType, direction: Direction, impact: int,
    confidence: real, rationale: string, bias: BiasInput, publishedAt: Timestamp): Result<AnalysisResult>
  {
    BuildAnalysisResult(symbol, eventType, direction, impact, confidence, rationale,
      ResolveBiasAsWritten(bias, impact, confidence), publishedAt)
  }

  function NewAnalysisResult(
    symbol: Option<string>, eventType: EventType, direction: Direction, impact: int,
    confidence: real, rationale: string, bias: BiasInput, publishedAt: Timestamp): Result<AnalysisResult>
  {
    BuildAnalysisResult(symbol, eventType, direction, impact, confidence, rationale,
      ResolveBias(bias, impact, confidence), publishedAt)
  }

  /** With the intended validator, a result built without a score carries
      `impact_strength * confidence`, which always lies in [0, 5]. */
  lemma BiasScoreDerived(
    symbol: string, eventType: EventType, direction: Direction, impact: int,
    confidence: real, rationale: string, bias: BiasInput, publishedAt: Timestamp)
    requires !bias.Given?
    requires |symbol| <= 20 && 1 <= |rationale| <= 200
    requires ImpactInRange(impact) && ConfidenceInRange(confidence)
    ensures NewAnalysisResult(Some(symbol), eventType, direction, impact, confidence, rationale, bias, publishedAt).Success?
    ensures NewAnalysisResult(Some(symbol), eventType, direction, impact, confidence, rationale, bias, publishedAt).value.biasScore
      == impact as real * confidence
  {
    ProductInRange(impact, confidence);
  }

  /** As written, leaving `bias_score` out is always a validation error: the case
      `AnalysisResult(..., impact_strength=4, confidence=0.75)` without a score fails
      instead of carrying 3.0. */
  lemma BiasScoreMissingAsWritten(
    symbol: Option<string>, eventType: EventType, direction: Direction, impact: int,
    confidence: real, rationale: string, publishedAt: Timestamp)
    ensures NewAnalysisResultAsWritten(symbol, eventType, direction, impact, confidence, rationale, Missing, publishedAt).Failure?
    ensures NewAnalysisResult(Some("INFY"), Earnings, BULLISH, 4, 0.75, "Good results", Missing, publishedAt)
      == Success(AnalysisRecord("INFY", Earnings, BULLISH, 4, 0.75, "Good results", 3.0, publishedAt))
  {
    assert Upper("INFY") == "INFY";
    ProductInRange(4, 0.75);
  }

  /** Whenever a score is passed (even as `None`), the two readings agree; the
      pipeline always passes one. */
  lemma BiasReadingsAgreeWhenSupplied(
    symbol: Option<string>, eventType: EventType, direction: Direction, impact: int,
    confidence: real, rationale: string, bias: BiasInput, publishedAt: Timestamp)
    requires !bias.Missing?
    ensures NewAnalysisResultAsWritten(symbol, eventType, direction, impact, confidence, rationale, bias, publishedAt)
      == NewAnalysisResult(symbol, eventType, direction, impact, confidence, rationale, bias, publishedAt)
  {
  }

  // ---------------------------------------------------------------------------
  // NewsItem

  /** A news item. Not a validated subset type: the pipeline assigns
      `stock_symbol` after construction, which bypasses validation. */
  datatype NewsItem = NewsItem(
    source: NewsSource, title: string, content: string, publishedAt: Timestamp,
    stockSymbol: Option<string>, url: string)

  /** The `stock_symbol` validator of `NewsItem`: upper-case it unless `isupper()`. */
  function ValidateNewsSymbol(v: Option<string>): (r: Option<string>)
  {
    if v.Some? && v.value != "" && !IsUpper(v.value) then Some(Upper(v.value)) else v
  }

  /** The `isupper()` shortcut is invisible: the validator always upper-cases. */
  lemma NewsSymbolUppercased(v: Option<string>)
    ensures v.None? ==> ValidateNewsSymbol(v) == None
    ensures v.Some? ==> ValidateNewsSymbol(v) == Some(Upper(v.value))
  {
    if v.Some? && (v.value == "" || IsUpper(v.value)) {
      UpperOfUpperCase(v.value);
    }
  }

  function NewNewsItem(
    source: NewsSource, title: string, content: string, publishedAt: Timestamp,
    stockSymbol: Option<string>, url: string): (r: Result<NewsItem>)
    ensures r.Success? <==>
      1 <= |title| <= 500 && |content| >= 1 && (stockSymbol.Some? ==> |stockSymbol.value| <= 20)
    ensures r.Success? ==> r.value == NewsItem(source, title, content, publishedAt, ValidateNewsSymbol(stockSymbol), url)
  {
    var errors :=
      (if 1 <= |title| <= 500 then [] else ["title"]) +
      (if |content| >= 1 then [] else ["content"]) +
      (if stockSymbol.None? || |stockSymbol.value| <= 20 then [] else ["stock_symbol"]);
    if errors == [] then Success(NewsItem(source, title, content, publishedAt, ValidateNewsSymbol(stockSymbol), url))
    else Failure(errors)
  }

  // ---------------------------------------------------------------------------
  // WatchlistItem

  datatype WatchlistRecord = WatchlistRecord(
    stockSymbol: string, direction: Direction, priority: Priority, biasScore: real,
    reason: string, newsCount: int, sector: Option<string>,
    latestNewsDatetime: Timestamp, date: string)

  predicate ValidWatchlistRecord(w: WatchlistRecord) {
    && IsSymbol(w.stockSymbol)
    && 0.0 <= w.biasScore <= 5.0
    && 1 <= |w.reason| <= 200
    && w.newsCount >= 1
    && (w.sector.Some? ==> |w.sector.value| <= 50)
  }

  type WatchlistItem = w: WatchlistRecord | ValidWatchlistRecord(w)
    witness WatchlistRecord("", NEUTRAL, LOW, 0.0, "-", 1, None, 0, "")

  /** A `WatchlistItem` as the pipeline builds it (no sector). */
  function NewWatchlistItem(
    symbol: string, direction: Direction, priority: Priority, bias: real, reason: string,
    newsCount: int, latest: Timestamp, date: string): (r: Result<WatchlistItem>)
    ensures r.Success? <==> |symbol| <= 20 && 0.0 <= bias <= 5.0 && 1 <= |reason| <= 200 && newsCount >= 1
    ensures r.Success? ==> r.value == WatchlistRecord(
      Upper(symbol), direction, priority, bias, reason, newsCount, None, latest, date)
  {
    var errors :=
      (if |symbol| <= 20 then [] else ["stock_symbol"]) +
      (if 0.0 <= bias <= 5.0 then [] else ["bias_score"]) +
      (if 1 <= |reason| <= 200 then [] else ["reason"]) +
      (if newsCount >= 1 then [] else ["news_count"]);
    if errors == [] then
      UpperIdempotent(symbol);
      Success(WatchlistRecord(Upper(symbol), direction, priority, bias, reason, newsCount, None, latest, date))
    else
      Failure(errors)
  }
}
