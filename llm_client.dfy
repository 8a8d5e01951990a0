/** The language-model client: reading the model id, choosing the request
    format by provider, and normalising the symbol of a combined
    extraction-and-analysis reply. The Bedrock calls themselves are a
    parameter (`invoke`). */
module LlmClient {
  import opened Wrappers
  import opened PyStr

  // ---------------------------------------------------------------------------
  // Model id

  const InferencePrefixes: seq<string> := ["us.", "eu.", "ap."]

  /** `_is_inference_profile`: a cross-region profile id starts with a region prefix. */
  function IsInferenceProfile(modelId: string): (r: bool)
    ensures r <==> StartsWith(modelId, "us.") || StartsWith(modelId, "eu.") || StartsWith(modelId, "ap.")
  {
    StartsWith(modelId, InferencePrefixes[0])
    || StartsWith(modelId, InferencePrefixes[1])
    || StartsWith(modelId, InferencePrefixes[2])
  }

  /** The client's configuration; `isInferenceProfile` is fixed when the client is built. */
  datatype Client = Client(modelId: string, isInferenceProfile: bool)

  function NewClient(modelId: string): (c: Client)
    ensures c.modelId == modelId
    ensures c.isInferenceProfile <==> IsInferenceProfile(modelId)
  {
    Client(modelId, IsInferenceProfile(modelId))
  }

  /** `_get_base_model_provider`: for a profile the second dot-separated part
      (the first if there is no dot), otherwise the first part. */
  function BaseModelProvider(c: Client): (provider: string)
    ensures '.' !in provider
    ensures !c.isInferenceProfile ==> provider == Split(c.modelId, '.')[0]
    ensures c.isInferenceProfile && '.' in c.modelId ==> provider == Split(c.modelId, '.')[1]
    ensures c.isInferenceProfile && '.' !in c.modelId ==> provider == c.modelId
  {
    var parts := Split(c.modelId, '.');
    if c.isInferenceProfile then (if |parts| > 1 then parts[1] else parts[0]) else parts[0]
  }

  lemma ThreeParts(a: string, b: string, c: string)
    requires '.' !in a && '.' !in b && '.' !in c
    ensures Split(a + "." + b + "." + c, '.') == [a, b, c]
  {
    assert a + "." + b + "." + c == Join([a, b, c], '.') by {
      assert Join([c], '.') == c;
      assert Join([b, c], '.') == b + "." + c;
    }
    SplitJoin([a, b, c], '.');
  }

  lemma RegionPrefixed(region: string, rest: string)
    requires region in {"us", "eu", "ap"}
    ensures IsInferenceProfile(region + "." + rest)
  {
    var id := region + "." + rest;
    assert id[..3] == region + ".";
  }

  /** For `region.provider.model` the provider is the middle part. */
  lemma ProviderOfProfile(region: string, provider: string, model: string)
    requires region in {"us", "eu", "ap"}
    requires '.' !in provider && '.' !in model
    ensures BaseModelProvider(NewClient(region + "." + provider + "." + model)) == provider
  {
    var id := region + "." + provider + "." + model;
    assert id == region + "." + (provider + "." + model);
    ThreeParts(region, provider, model);
    RegionPrefixed(region, provider + "." + model);
    var c := NewClient(id);
    assert c.isInferenceProfile;
    var parts := Split(id, '.');
    assert parts == [region, provider, model];
    assert BaseModelProvider(c) == parts[1];
  }

  /** For `provider.model` (no region prefix) the provider is the first part. */
  lemma ProviderOfModelId(provider: string, model: string)
    requires '.' !in provider && '.' !in model
    requires !IsInferenceProfile(provider + "." + model)
    ensures BaseModelProvider(NewClient(provider + "." + model)) == provider
  {
    assert provider + "." + model == Join([provider, model], '.') by {
      assert Join([model], '.') == model;
    }
    SplitJoin([provider, model], '.');
  }

  // ---------------------------------------------------------------------------
  // Provider dispatch

  /** The request/response formats of the five model families. */
  datatype Handler = ClaudeHandler | LlamaHandler | TitanHandler | Ai21Handler | CohereHandler

  /** The if-chain of `analyze_news`: an unknown provider falls back to the Claude format. */
  function HandlerFor(provider: string): (h: Handler)
    ensures h == LlamaHandler <==> provider == "meta"
    ensures h == TitanHandler <==> provider == "amazon"
    ensures h == Ai21Handler <==> provider == "ai21"
    ensures h == CohereHandler <==> provider == "cohere"
    ensures h == ClaudeHandler <==> provider !in {"meta", "amazon", "ai21", "cohere"}
  {
    if provider == "anthropic" then ClaudeHandler
    else if provider == "meta" then LlamaHandler
    else if provider == "amazon" then TitanHandler
    else if provider == "ai21" then Ai21Handler
    else if provider == "cohere" then CohereHandler
    else ClaudeHandler
  }

  // ---------------------------------------------------------------------------
  // Replies

  /** A parsed JSON value, as the handlers return it. */
  datatype Json =
    | JNull
    | JBool(b: bool)
    | JInt(i: int)
    | JReal(r: real)
    | JStr(s: string)
    | JArray(items: seq<Json>)
    | JObject(fields: map<string, Json>)

  /** Python truthiness of a decoded JSON value. */
  predicate Truthy(v: Json) {
    match v
    case JNull => false
    case JBool(b) => b
    case JInt(i) => i != 0
    case JReal(r) => r != 0.0
    case JStr(s) => s != ""
    case JArray(items) => items != []
    case JObject(fields) => fields != map[]
  }

  /** What a model call produced: the decoded JSON object, or an exception. */
  datatype Reply = Answer(body: map<string, Json>) | Raised

  /** `analyze_news`: call the handler chosen by the provider. */
  function AnalyzeNews(c: Client, systemPrompt: string, userPrompt: string,
                       invoke: (Handler, string, string) -> Reply): (r: Reply)
    ensures BaseModelProvider(c) == "meta" ==> r == invoke(LlamaHandler, systemPrompt, userPrompt)
    ensures BaseModelProvider(c) == "amazon" ==> r == invoke(TitanHandler, systemPrompt, userPrompt)
    ensures BaseModelProvider(c) == "ai21" ==> r == invoke(Ai21Handler, systemPrompt, userPrompt)
    ensures BaseModelProvider(c) == "cohere" ==> r == invoke(CohereHandler, systemPrompt, userPrompt)
    ensures BaseModelProvider(c) !in {"meta", "amazon", "ai21", "cohere"} ==>
      r == invoke(ClaudeHandler, systemPrompt, userPrompt)
  {
    invoke(HandlerFor(BaseModelProvider(c)), systemPrompt, userPrompt)
  }

  /** The outcome of `extract_and_analyze`. */
  datatype Combined = NoSymbol | Found(body: map<string, Json>) | Failed

  /** When the reply names no usable symbol: absent, falsy (`None`, `""`, ...) or
      the word "null" in any letter case. */
  predicate NoUsableSymbol(body: map<string, Json>) {
    "stock_symbol" !in body
    || !Truthy(body["stock_symbol"])
    || (body["stock_symbol"].JStr? && Lower(body["stock_symbol"].s) == "null")
  }

  /** `extract_and_analyze`: the reply's `stock_symbol` is overwritten in place
      with its upper-case form. A failing call re-raises; so does a truthy
      symbol that is not a string (it has no `lower`), and a reply without
      "direction" (read when the result is logged). */
  method ExtractAndAnalyze(c: Client, systemPrompt: string, userPrompt: string,
                           invoke: (Handler, string, string) -> Reply)
    returns (r: Combined)
    ensures AnalyzeNews(c, systemPrompt, userPrompt, invoke).Raised? ==> r == Failed
    ensures AnalyzeNews(c, systemPrompt, userPrompt, invoke).Answer? ==>
      var body := AnalyzeNews(c, systemPrompt, userPrompt, invoke).body;
      && (r == NoSymbol <==> NoUsableSymbol(body))
      && (r == Failed <==> !NoUsableSymbol(body) && (!body["stock_symbol"].JStr? || "direction" !in body))
      && (r.Found? ==>
            && body["stock_symbol"].JStr?
            && r.body == body["stock_symbol" := JStr(Upper(body["stock_symbol"].s))])
  {
    var reply := AnalyzeNews(c, systemPrompt, userPrompt, invoke);
    if reply.Raised? {
      return Failed;
    }
    var result := reply.body;
    if "stock_symbol" !in result || !Truthy(result["stock_symbol"]) {
      return NoSymbol;
    }
    var symbol := result["stock_symbol"];
    if !symbol.JStr? {
      return Failed;
    }
    if Lower(symbol.s) == "null" {
      return NoSymbol;
    }
    result := result["stock_symbol" := JStr(Upper(symbol.s))];
    if "direction" !in result {
      return Failed;
    }
    return Found(result);
  }

  /** What a `Found` result carries: a non-empty upper-case symbol that is not
      "NULL", with every other key of the reply unchanged. */
  lemma FoundSymbolNormalised(body: map<string, Json>, found: map<string, Json>)
    requires "stock_symbol" in body && body["stock_symbol"].JStr?
    requires !NoUsableSymbol(body)
    requires found == body["stock_symbol" := JStr(Upper(body["stock_symbol"].s))]
    ensures found.Keys == body.Keys
    ensures forall k :: k in body && k != "stock_symbol" ==> found[k] == body[k]
    ensures found["stock_symbol"].s != "" && Upper(found["stock_symbol"].s) == found["stock_symbol"].s
    ensures found["stock_symbol"].s != "NULL"
  {
    var s := body["stock_symbol"].s;
    UpperIdempotent(s);
    if Upper(s) == "NULL" {
      LowerUpper(s);
      assert false;
    }
  }
}
