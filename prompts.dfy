/** The user prompts sent to the language model: a fixed template with named
    holes, filled by `str.format` with the (truncated) news fields. */
module Prompts {
  import opened Wrappers
  import opened PyStr

  /** A format template after parsing: literal text (with doubled braces already
      read as single ones) and named replacement fields. */
  datatype Segment = Lit(text: string) | Hole(name: string)

  predicate Binds(template: seq<Segment>, args: map<string, string>) {
    forall i :: 0 <= i < |template| && template[i].Hole? ==> template[i].name in args
  }

  function RenderSegment(s: Segment, args: map<string, string>): string
    requires s.Hole? ==> s.name in args
  {
    match s
    case Lit(text) => text
    case Hole(n) => args[n]
  }

  /** The concatenation of the rendered segments of a template whose fields are all bound. */
  function RenderAll(t: seq<Segment>, args: map<string, string>): string
    requires Binds(t, args)
  {
    if t == [] then "" else RenderSegment(t[0], args) + RenderAll(t[1..], args)
  }

  /** `template.format(**args)`; a replacement field without an argument raises
      `KeyError`, modelled as `None`. */
  function Render(template: seq<Segment>, args: map<string, string>): (r: Option<string>)
    ensures r.Some? <==> Binds(template, args)
  {
    if Binds(template, args) then Some(RenderAll(template, args)) else None
  }

  /** A template of three holes separated by literal text, as both prompts are. */
  function ThreeFields(a: string, f1: string, b: string, f2: string, c: string, f3: string, d: string): seq<Segment> {
    [Lit(a), Hole(f1), Lit(b), Hole(f2), Lit(c), Hole(f3), Lit(d)]
  }

  function TwoFields(a: string, f1: string, b: string, f2: string, c: string): seq<Segment> {
    [Lit(a), Hole(f1), Lit(b), Hole(f2), Lit(c)]
  }

  lemma RenderTwoFields(a: string, f1: string, b: string, f2: string, c: string, args: map<string, string>)
    requires f1 in args && f2 in args
    ensures Render(TwoFields(a, f1, b, f2, c), args) == Some(a + args[f1] + b + args[f2] + c)
  {
    var t := TwoFields(a, f1, b, f2, c);
    assert Binds(t, args);
    assert RenderAll([Lit(c)], args) == c;
    assert RenderAll([Hole(f2), Lit(c)], args) == args[f2] + c by {
      assert [Hole(f2), Lit(c)][1..] == [Lit(c)];
    }
    assert RenderAll([Lit(b), Hole(f2), Lit(c)], args) == b + args[f2] + c by {
      assert [Lit(b), Hole(f2), Lit(c)][1..] == [Hole(f2), Lit(c)];
    }
    assert RenderAll([Hole(f1), Lit(b), Hole(f2), Lit(c)], args) == args[f1] + b + args[f2] + c by {
      assert [Hole(f1), Lit(b), Hole(f2), Lit(c)][1..] == [Lit(b), Hole(f2), Lit(c)];
    }
    assert t[1..] == [Hole(f1), Lit(b), Hole(f2), Lit(c)];
    assert RenderAll(t, args) == a + (args[f1] + b + args[f2] + c);
    assert a + (args[f1] + b + args[f2] + c) == a + args[f1] + b + args[f2] + c;
  }

  lemma RenderThreeFields(a: string, f1: string, b: string, f2: string, c: string, f3: string, d: string, args: map<string, string>)
    requires f1 in args && f2 in args && f3 in args
    ensures Render(ThreeFields(a, f1, b, f2, c, f3, d), args) == Some(a + args[f1] + b + args[f2] + c + args[f3] + d)
  {
    var t := ThreeFields(a, f1, b, f2, c, f3, d);
    var rest := TwoFields(b, f2, c, f3, d);
    RenderTwoFields(b, f2, c, f3, d, args);
    assert Binds(t, args);
    assert RenderAll([Hole(f1)] + rest, args) == args[f1] + RenderAll(rest, args) by {
      assert ([Hole(f1)] + rest)[1..] == rest;
    }
    assert t[1..] == [Hole(f1)] + rest;
    assert RenderAll(t, args) == a + (args[f1] + (b + args[f2] + c + args[f3] + d));
    assert a + (args[f1] + (b + args[f2] + c + args[f3] + d)) == a + args[f1] + b + args[f2] + c + args[f3] + d;
  }

  const MAX_TITLE_CHARS := 500
  const MAX_CONTENT_CHARS := 2000

  const AnalysisIntro := "Analyze the following news for intraday trading impact:\n\nStock Symbol: "
  const NewsTitleLabel := "\nNews Title: "
  const NewsContentLabel := "\nNews Content: "

  const AnalysisInstructions := @"

Provide your analysis in the following JSON format:
{
  ""event_type"": ""Earnings|Order|Regulatory|Macro|Other"",
  ""direction"": ""BULLISH|BEARISH|NEUTRAL"",
  ""impact_strength"": <integer 1-5, where 1=minimal, 5=major>,
  ""confidence"": <float 0.0-1.0, your confidence in this analysis>,
  ""rationale"": ""<one-line explanation, max 200 characters>""
}

Analysis Rules:
1. event_type: Classify the news type
   - Earnings: Quarterly results, profit announcements
   - Order: New contracts, orders won/lost
   - Regulatory: Compliance, legal, regulatory changes
   - Macro: Market-wide events, economic indicators
   - Other: Everything else

2. direction: Expected intraday price movement
   - BULLISH: Likely to push price up today
   - BEARISH: Likely to push price down today
   - NEUTRAL: Minimal/unclear impact

3. impact_strength: Magnitude of expected impact (1-5)
   - 5: Major catalyst (>3% expected move)
   - 4: Strong catalyst (2-3% expected move)
   - 3: Moderate catalyst (1-2% expected move)
   - 2: Minor catalyst (<1% expected move)
   - 1: Negligible catalyst

4. confidence: Your confidence level (0.0-1.0)
   - 0.9-1.0: Very confident (clear, unambiguous news)
   - 0.7-0.89: Confident (news is clear but market reaction uncertain)
   - 0.5-0.69: Moderate confidence (mixed signals)
   - <0.5: Low confidence (unclear impact)

5. rationale: Concise explanation
   - One line, max 200 characters
   - State the key reason for your assessment
   - No speculation, only facts from the news

Respond with ONLY the JSON object, no additional text."

  const AnalysisTemplate: seq<Segment> := ThreeFields(
    AnalysisIntro, "stock_symbol", NewsTitleLabel, "news_title", NewsContentLabel, "news_content",
    AnalysisInstructions)

  const CombinedIntro := "Analyze the following news article for intraday trading:\n\nNews Title: "

  const CombinedInstructions := @"

Provide your analysis in the following JSON format:
{
  ""stock_symbol"": ""<NSE/BSE stock symbol or null if not applicable>"",
  ""event_type"": ""Earnings|Order|Regulatory|Macro|Other"",
  ""direction"": ""BULLISH|BEARISH|NEUTRAL"",
  ""impact_strength"": <integer 1-5, where 1=minimal, 5=major>,
  ""confidence"": <float 0.0-1.0, your confidence in this analysis>,
  ""rationale"": ""<one-line explanation, max 200 characters>""
}

Stock Symbol Extraction Rules:
- Extract the PRIMARY NSE/BSE-listed stock symbol most relevant to this news
- If a company name is mentioned, return its correct NSE/BSE stock symbol (e.g., ""Reliance Industries"" → ""RELIANCE"")
- If no specific company is mentioned but sector impact is clear, return the most affected major stock
- Return null if no relevant Indian stock can be identified
- Ignore indices (NIFTY, SENSEX), commodities, or non-NSE/BSE stocks

Analysis Rules:
1. event_type: Classify the news type
   - Earnings: Quarterly results, profit announcements
   - Order: New contracts, orders won/lost
   - Regulatory: Compliance, legal, regulatory changes
   - Macro: Market-wide events, economic indicators
   - Other: Everything else

2. direction: Expected intraday price movement
   - BULLISH: Likely to push price up today
   - BEARISH: Likely to push price down today
   - NEUTRAL: Minimal/unclear impact

3. impact_strength: Magnitude of expected impact (1-5)
   - 5: Major catalyst (>3% expected move)
   - 4: Strong catalyst (2-3% expected move)
   - 3: Moderate catalyst (1-2% expected move)
   - 2: Minor catalyst (<1% expected move)
   - 1: Negligible catalyst

4. confidence: Your confidence level (0.0-1.0)
   - 0.9-1.0: Very confident
   - 0.7-0.89: Confident
   - 0.5-0.69: Moderate confidence
   - <0.5: Low confidence

5. rationale: Concise explanation (max 200 characters)

Respond with ONLY the JSON object, no additional text."

  const CombinedTemplate: seq<Segment> := TwoFields(
    CombinedIntro, "news_title", NewsContentLabel, "news_content", CombinedInstructions)

  /** `stock_symbol or "Unknown"`: `None` and the empty string are both falsy. */
  function SymbolOrUnknown(symbol: Option<string>): (r: string)
    ensures (symbol.None? || symbol.value == "") ==> r == "Unknown"
    ensures (symbol.Some? && symbol.value != "") ==> r == symbol.value
    ensures r != ""
  {
    if symbol.Some? && symbol.value != "" then symbol.value else "Unknown"
  }

  function AnalysisArgs(symbol: Option<string>, title: string, content: string): map<string, string> {
    map[
      "stock_symbol" := SymbolOrUnknown(symbol),
      "news_title" := Take(title, MAX_TITLE_CHARS),
      "news_content" := Take(content, MAX_CONTENT_CHARS)]
  }

  function CombinedArgs(title: string, content: string): map<string, string> {
    map["news_title" := Take(title, MAX_TITLE_CHARS), "news_content" := Take(content, MAX_CONTENT_CHARS)]
  }

  /** `format_analysis_prompt`: every field of the template is supplied, so the
      formatting never raises. */
  function FormatAnalysisPrompt(symbol: Option<string>, title: string, content: string): (r: string)
    ensures Render(AnalysisTemplate, AnalysisArgs(symbol, title, content)) == Some(r)
  {
    var args := AnalysisArgs(symbol, title, content);
    assert Binds(AnalysisTemplate, args);
    Render(AnalysisTemplate, args).value
  }

  /** `format_combined_analysis_prompt`: the same truncations, no symbol field. */
  function FormatCombinedAnalysisPrompt(title: string, content: string): (r: string)
    ensures Render(CombinedTemplate, CombinedArgs(title, content)) == Some(r)
  {
    var args := CombinedArgs(title, content);
    assert Binds(CombinedTemplate, args);
    Render(CombinedTemplate, args).value
  }

  /** The truncations: the substituted title is the first `min(500, len)`
      characters of the title and the content the first `min(2000, len)`
      characters of the content. */
  lemma TruncatedFields(title: string, content: string)
    ensures |Take(title, MAX_TITLE_CHARS)| == Min(MAX_TITLE_CHARS, |title|)
    ensures Take(title, MAX_TITLE_CHARS) == title[..Min(MAX_TITLE_CHARS, |title|)]
    ensures |Take(content, MAX_CONTENT_CHARS)| == Min(MAX_CONTENT_CHARS, |content|)
    ensures Take(content, MAX_CONTENT_CHARS) == content[..Min(MAX_CONTENT_CHARS, |content|)]
    ensures |title| <= MAX_TITLE_CHARS ==> Take(title, MAX_TITLE_CHARS) == title
  {
  }

  /** The analysis prompt is the template text with the symbol (or "Unknown"),
      the truncated title and the truncated content in their places. */
  lemma AnalysisPromptLayout(symbol: Option<string>, title: string, content: string)
    ensures FormatAnalysisPrompt(symbol, title, content) ==
      AnalysisIntro + SymbolOrUnknown(symbol)
      + NewsTitleLabel + title[..Min(MAX_TITLE_CHARS, |title|)]
      + NewsContentLabel + content[..Min(MAX_CONTENT_CHARS, |content|)]
      + AnalysisInstructions
  {
    var args := AnalysisArgs(symbol, title, content);
    RenderThreeFields(AnalysisIntro, "stock_symbol", NewsTitleLabel, "news_title", NewsContentLabel, "news_content",
      AnalysisInstructions, args);
  }

  lemma CombinedPromptLayout(title: string, content: string)
    ensures FormatCombinedAnalysisPrompt(title, content) ==
      CombinedIntro + title[..Min(MAX_TITLE_CHARS, |title|)]
      + NewsContentLabel + content[..Min(MAX_CONTENT_CHARS, |content|)]
      + CombinedInstructions
  {
    var args := CombinedArgs(title, content);
    RenderTwoFields(CombinedIntro, "news_title", NewsContentLabel, "news_content", CombinedInstructions, args);
  }

  /** Whatever the news, the prompt stays within the template's own length plus
      the symbol and the two truncation limits. */
  lemma AnalysisPromptBounded(symbol: Option<string>, title: string, content: string)
    ensures |FormatAnalysisPrompt(symbol, title, content)| <=
      |AnalysisIntro| + |NewsTitleLabel| + |NewsContentLabel| + |AnalysisInstructions|
      + |SymbolOrUnknown(symbol)| + MAX_TITLE_CHARS + MAX_CONTENT_CHARS
  {
    AnalysisPromptLayout(symbol, title, content);
  }

  lemma CombinedPromptBounded(title: string, content: string)
    ensures |FormatCombinedAnalysisPrompt(title, content)| <=
      |CombinedIntro| + |NewsContentLabel| + |CombinedInstructions| + MAX_TITLE_CHARS + MAX_CONTENT_CHARS
  {
    CombinedPromptLayout(title, content);
  }
}
