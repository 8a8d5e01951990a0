/** What `generate_watchlist` computes, stated as functions of the sequence of
    analysis results: the groups by stock symbol (in the order a dictionary
    keyed by symbol lists them), the per-symbol aggregate, the filters that
    turn an aggregate into a watchlist entry, and the final ranking. */
module WatchlistSpec {
  import opened Wrappers
  import opened PyStr
  import opened Models
  import opened Utils
  import opened Constants
  import opened SeqUtil

  function AnalysisScore(a: AnalysisResult): real { a.biasScore }

  function ItemScore(w: WatchlistItem): real { w.biasScore }

  function ItemSymbol(w: WatchlistItem): string { w.stockSymbol }

  function ItemDirection(w: WatchlistItem): Direction { w.direction }

  function SymbolSeq(analyses: seq<AnalysisResult>): (r: seq<string>)
    ensures |r| == |analyses| && forall i :: 0 <= i < |analyses| ==> r[i] == analyses[i].stockSymbol
  {
    seq(|analyses|, i requires 0 <= i < |analyses| => analyses[i].stockSymbol)
  }

  function DirSeq(g: seq<AnalysisResult>): (r: seq<Direction>)
    ensures |r| == |g| && forall i :: 0 <= i < |g| ==> r[i] == g[i].direction
  {
    seq(|g|, i requires 0 <= i < |g| => g[i].direction)
  }

  /** The symbols in the order the aggregation dictionary acquires them. */
  function SymbolsInOrder(analyses: seq<AnalysisResult>): seq<string> {
    FirstSeen(SymbolSeq(analyses))
  }

  /** The analyses of one symbol, in input order. */
  function Group(analyses: seq<AnalysisResult>, symbol: string): (g: seq<AnalysisResult>)
    ensures |g| <= |analyses|
    ensures forall i :: 0 <= i < |g| ==> g[i].stockSymbol == symbol
    ensures g == [] <==> symbol !in SymbolSeq(analyses)
  {
    if analyses == [] then []
    else
      var n := |analyses| - 1;
      var init := analyses[..n];
      assert SymbolSeq(analyses) == SymbolSeq(init) + [analyses[n].stockSymbol];
      Group(init, symbol) + (if analyses[n].stockSymbol == symbol then [analyses[n]] else [])
  }

  /** Every analysis of the group comes from the input. */
  lemma {:induction false} GroupMembers(analyses: seq<AnalysisResult>, symbol: string)
    ensures forall a :: a in Group(analyses, symbol) ==> a in analyses
  {
    if analyses != [] {
      var n := |analyses| - 1;
      GroupMembers(analyses[..n], symbol);
      assert forall a :: a in analyses[..n] ==> a in analyses;
    }
  }

  // ---------------------------------------------------------------------------
  // Reference definitions of the per-group quantities

  function SumBias(g: seq<AnalysisResult>): (r: real)
    ensures 0.0 <= r <= 5.0 * |g| as real
  {
    if g == [] then 0.0 else g[0].biasScore + SumBias(g[1..])
  }

  /** How many analyses of `g` have direction `d`. */
  function Tally(g: seq<AnalysisResult>, d: Direction): nat {
    multiset(DirSeq(g))[d]
  }

  /** `t` is the latest publication time of `g`. */
  ghost predicate IsLatest(g: seq<AnalysisResult>, t: Timestamp) {
    && (forall i :: 0 <= i < |g| ==> g[i].newsPublishedAt <= t)
    && (exists i :: 0 <= i < |g| && g[i].newsPublishedAt == t)
  }

  /** `d` is `max(directions, key=directions.get)` for the group: its tally is
      maximal, and every direction first seen before it has a smaller tally. */
  ghost predicate DominantIs(g: seq<AnalysisResult>, d: Direction) {
    && d in DirSeq(g)
    && (forall e :: Tally(g, e) <= Tally(g, d))
    && (forall i :: 0 <= i < FirstIndex(DirSeq(g), d) ==> Tally(g, g[i].direction) < Tally(g, d))
  }

  /** At most one direction is dominant. */
  lemma DominantUnique(g: seq<AnalysisResult>, d1: Direction, d2: Direction)
    requires DominantIs(g, d1) && DominantIs(g, d2)
    ensures d1 == d2
  {
    var ds := DirSeq(g);
    var i1 := FirstIndex(ds, d1);
    var i2 := FirstIndex(ds, d2);
    if i1 < i2 {
      assert false;
    } else if i2 < i1 {
      assert false;
    }
  }

  // ---------------------------------------------------------------------------
  // The aggregate kept per symbol

  /** One value of `stock_aggregates`. The direction tally is a dictionary:
      its keys in insertion order and its counts. */
  datatype Aggregate = Aggregate(
    analyses: seq<AnalysisResult>,
    totalBiasScore: real,
    directionOrder: seq<Direction>,
    directionCounts: map<Direction, nat>,
    latestNewsDatetime: Option<Timestamp>)

  const EmptyAggregate: Aggregate := Aggregate([], 0.0, [], map[], None)

  /** One pass of the aggregation loop body on the analysis's own aggregate. */
  function AddAnalysis(agg: Aggregate, a: AnalysisResult): Aggregate {
    var d := a.direction;
    Aggregate(
      agg.analyses + [a],
      agg.totalBiasScore + a.biasScore,
      if d in agg.directionCounts then agg.directionOrder else agg.directionOrder + [d],
      agg.directionCounts[d := CountOf(agg.directionCounts, d) + 1],
      if agg.latestNewsDatetime.None? || a.newsPublishedAt > agg.latestNewsDatetime.value
      then Some(a.newsPublishedAt) else agg.latestNewsDatetime)
  }

  /** The aggregate after the loop has seen the analyses `g`, in order. */
  function AggregateOf(g: seq<AnalysisResult>): Aggregate {
    if g == [] then EmptyAggregate
    else AddAnalysis(AggregateOf(g[..|g| - 1]), g[|g| - 1])
  }

  lemma AggregateOfAppend(g: seq<AnalysisResult>, a: AnalysisResult)
    ensures AggregateOf(g + [a]) == AddAnalysis(AggregateOf(g), a)
  {
    assert (g + [a])[..|g|] == g;
  }

  lemma SumBiasAppend(g: seq<AnalysisResult>, a: AnalysisResult)
    ensures SumBias(g + [a]) == SumBias(g) + a.biasScore
  {
    if g != [] {
      assert (g + [a])[1..] == g[1..] + [a];
      SumBiasAppend(g[1..], a);
    }
  }

  lemma DirSeqAppend(g: seq<AnalysisResult>, a: AnalysisResult)
    ensures DirSeq(g + [a]) == DirSeq(g) + [a.direction]
  {
  }

  /** The aggregate keeps the group and the sum of its bias scores. */
  lemma {:induction false} AggregateTotals(g: seq<AnalysisResult>)
    ensures AggregateOf(g).analyses == g
    ensures AggregateOf(g).totalBiasScore == SumBias(g)
  {
    if g != [] {
      var n := |g| - 1;
      AggregateTotals(g[..n]);
      assert g == g[..n] + [g[n]];
      SumBiasAppend(g[..n], g[n]);
    }
  }

  /** The direction tally has a key for each direction of the group. */
  lemma {:induction false} AggregateDirectionKeys(g: seq<AnalysisResult>)
    ensures forall d :: d in AggregateOf(g).directionCounts <==> d in DirSeq(g)
  {
    if g != [] {
      var n := |g| - 1;
      var init := g[..n];
      var a := g[n];
      AggregateDirectionKeys(init);
      assert AggregateOf(g) == AddAnalysis(AggregateOf(init), a);
      assert DirSeq(g) == DirSeq(init) + [a.direction];
    }
  }

  /** The direction tally lists each direction of the group once, in the
      order of first appearance. */
  lemma {:induction false} AggregateDirectionOrder(g: seq<AnalysisResult>)
    ensures AggregateOf(g).directionOrder == FirstSeen(DirSeq(g))
    ensures forall d :: d in AggregateOf(g).directionCounts <==> d in DirSeq(g)
  {
    AggregateDirectionKeys(g);
    if g != [] {
      var n := |g| - 1;
      var init := g[..n];
      var a := g[n];
      AggregateDirectionOrder(init);
      var prev := AggregateOf(init);
      assert AggregateOf(g) == AddAnalysis(prev, a);
      var ds := DirSeq(g);
      assert ds[..n] == DirSeq(init) && ds[n] == a.direction;
      FirstSeenMember(DirSeq(init), a.direction);
      assert a.direction in prev.directionCounts <==> a.direction in FirstSeen(DirSeq(init));
    }
  }

  /** Each direction's count in the tally is its number of occurrences. */
  lemma {:induction false} AggregateDirectionCount(g: seq<AnalysisResult>, d: Direction)
    ensures CountOf(AggregateOf(g).directionCounts, d) == Tally(g, d)
  {
    if g != [] {
      var n := |g| - 1;
      var init := g[..n];
      var a := g[n];
      AggregateDirectionCount(init, d);
      var ds := DirSeq(g);
      assert ds == DirSeq(init) + [a.direction];
    }
  }

  /** The tracked datetime is the latest publication time of the group. */
  lemma {:induction false} AggregateLatest(g: seq<AnalysisResult>)
    ensures AggregateOf(g).latestNewsDatetime.Some? <==> g != []
    ensures g != [] ==> IsLatest(g, AggregateOf(g).latestNewsDatetime.value)
  {
    if g != [] {
      var n := |g| - 1;
      var init := g[..n];
      AggregateLatest(init);
      var t := AggregateOf(g).latestNewsDatetime.value;
      assert forall i :: 0 <= i < n ==> g[i] == init[i];
      if init == [] || g[n].newsPublishedAt > AggregateOf(init).latestNewsDatetime.value {
        assert g[n].newsPublishedAt == t;
      } else {
        var i :| 0 <= i < |init| && init[i].newsPublishedAt == t;
        assert g[i].newsPublishedAt == t;
      }
    }
  }

  // ---------------------------------------------------------------------------
  // From aggregate to entry

  /** The body of the second loop for one symbol: `None` for each `continue`
      and for a `WatchlistItem` that fails validation. */
  function CandidateOf(symbol: string, agg: Aggregate, date: string): Option<WatchlistItem> {
    var count := |agg.analyses|;
    if count < MIN_NEWS_COUNT_FOR_WATCHLIST then None
    else
      var avg := agg.totalBiasScore / count as real;
      if agg.directionOrder == [] then None
      else
        var dominant := agg.directionOrder[ArgMaxFirst(agg.directionOrder, agg.directionCounts)];
        if dominant == NEUTRAL then None
        else
          var priority := DeterminePriority(avg);
          if priority == LOW then None
          else
            var reason := SortDesc(agg.analyses, AnalysisScore)[0].rationale;
            if agg.latestNewsDatetime.None? then None
            else
              match NewWatchlistItem(symbol, dominant, priority, avg, reason, count,
                                     agg.latestNewsDatetime.value, date)
              case Success(w) => Some(w)
              case Failure(_) => None
  }

  /** The first-seen key with the largest tally is the dominant direction. */
  lemma {:induction false} DominantOfAggregate(g: seq<AnalysisResult>)
    requires g != []
    ensures AggregateOf(g).directionOrder != []
    ensures DominantIs(g, AggregateOf(g).directionOrder[
      ArgMaxFirst(AggregateOf(g).directionOrder, AggregateOf(g).directionCounts)])
  {
    AggregateDirectionOrder(g);
    var counts := AggregateOf(g).directionCounts;
    var ds := DirSeq(g);
    ArgMaxFirstSeen(ds, counts);
    var d := FirstSeen(ds)[ArgMaxFirst(FirstSeen(ds), counts)];
    AggregateDirectionCount(g, d);
    forall e ensures Tally(g, e) <= Tally(g, d) {
      AggregateDirectionCount(g, e);
      if e !in ds {
        assert multiset(ds)[e] == 0;
      }
    }
    forall i | 0 <= i < FirstIndex(ds, d) ensures Tally(g, g[i].direction) < Tally(g, d) {
      AggregateDirectionCount(g, ds[i]);
    }
  }

  /** The average of `n` scores in [0, 5] lies in [0, 5]. */
  lemma AverageBounds(total: real, n: int)
    requires n >= 1 && 0.0 <= total <= 5.0 * n as real
    ensures 0.0 <= total / n as real <= 5.0
  {
    var avg := total / n as real;
    assert avg * n as real == total;
    if avg > 5.0 {
      assert avg * n as real > 5.0 * n as real;
    }
  }

  /** On an aggregate of at least one analysis, `CandidateOf` keeps the symbol
      exactly when the dominant direction is not NEUTRAL and the average score
      reaches the medium threshold, and then records those values. */
  lemma {:induction false} CandidateOfAggregate(symbol: string, agg: Aggregate, date: string)
    requires |agg.analyses| >= 1 && agg.directionOrder != [] && agg.latestNewsDatetime.Some?
    requires |symbol| <= 20
    requires 0.0 <= agg.totalBiasScore / |agg.analyses| as real <= 5.0
    ensures var avg := agg.totalBiasScore / |agg.analyses| as real;
      var dominant := agg.directionOrder[ArgMaxFirst(agg.directionOrder, agg.directionCounts)];
      && (CandidateOf(symbol, agg, date).Some? <==> dominant != NEUTRAL && avg >= BIAS_SCORE_MEDIUM_THRESHOLD)
      && (CandidateOf(symbol, agg, date).Some? ==>
            CandidateOf(symbol, agg, date).value == WatchlistRecord(
              Upper(symbol), dominant, DeterminePriority(avg), avg,
              SortDesc(agg.analyses, AnalysisScore)[0].rationale, |agg.analyses|, None,
              agg.latestNewsDatetime.value, date))
  {
  }

  /** The analysis with the largest bias score, the first one on a tie. */
  function BestAnalysis(g: seq<AnalysisResult>): AnalysisResult
    requires g != []
  {
    g[FirstMaxIndex(g, AnalysisScore)]
  }

  /** What an entry built from a symbol's group states about that group. */
  ghost predicate EntryOfGroup(w: WatchlistItem, g: seq<AnalysisResult>, date: string) {
    && |g| >= MIN_NEWS_COUNT_FOR_WATCHLIST
    && w.newsCount == |g|
    && w.biasScore == SumBias(g) / |g| as real
    && w.priority == DeterminePriority(w.biasScore)
    && w.priority != LOW
    && DominantIs(g, w.direction)
    && w.direction != NEUTRAL
    && w.reason == BestAnalysis(g).rationale
    && IsLatest(g, w.latestNewsDatetime)
    && w.sector.None?
    && w.date == date
  }

  /** A group gets an entry exactly when its average reaches the medium
      threshold and NEUTRAL is not its dominant direction. */
  lemma {:induction false} CandidateOfGroupExists(g: seq<AnalysisResult>, symbol: string, date: string)
    requires g != []
    requires forall i :: 0 <= i < |g| ==> g[i].stockSymbol == symbol
    ensures CandidateOf(symbol, AggregateOf(g), date).Some? <==>
      SumBias(g) / |g| as real >= BIAS_SCORE_MEDIUM_THRESHOLD && !DominantIs(g, NEUTRAL)
  {
    var agg := AggregateOf(g);
    AggregateTotals(g);
    AggregateLatest(g);
    DominantOfAggregate(g);
    assert g[0].stockSymbol == symbol;
    AverageBounds(SumBias(g), |g|);
    CandidateOfAggregate(symbol, agg, date);
    var dominant := agg.directionOrder[ArgMaxFirst(agg.directionOrder, agg.directionCounts)];
    assert DominantIs(g, NEUTRAL) <==> dominant == NEUTRAL by {
      if DominantIs(g, NEUTRAL) {
        DominantUnique(g, dominant, NEUTRAL);
      }
    }
    assert SumBias(g) / |g| as real == agg.totalBiasScore / |agg.analyses| as real;
  }

  /** An entry built from a group carries the group's symbol, size, average
      score, dominant direction, best reason and latest datetime. */
  lemma {:induction false} CandidateOfGroup(g: seq<AnalysisResult>, symbol: string, date: string)
    requires g != []
    requires forall i :: 0 <= i < |g| ==> g[i].stockSymbol == symbol
    requires CandidateOf(symbol, AggregateOf(g), date).Some?
    ensures CandidateOf(symbol, AggregateOf(g), date).value.stockSymbol == symbol
    ensures EntryOfGroup(CandidateOf(symbol, AggregateOf(g), date).value, g, date)
  {
    var agg := AggregateOf(g);
    AggregateTotals(g);
    AggregateLatest(g);
    DominantOfAggregate(g);
    assert g[0].stockSymbol == symbol;
    AverageBounds(SumBias(g), |g|);
    CandidateOfAggregate(symbol, agg, date);
    SortDescHead(g, AnalysisScore);
    var w := CandidateOf(symbol, agg, date).value;
    assert w.direction == agg.directionOrder[ArgMaxFirst(agg.directionOrder, agg.directionCounts)];
    assert w.latestNewsDatetime == agg.latestNewsDatetime.value;
    assert w.reason == BestAnalysis(g).rationale;
  }

  // ---------------------------------------------------------------------------
  // The watchlist

  /** The second loop's body as a function of the symbol. */
  function CandidateFor(analyses: seq<AnalysisResult>, date: string): string -> Option<WatchlistItem> {
    symbol => CandidateOf(symbol, AggregateOf(Group(analyses, symbol)), date)
  }

  /** The second loop's body as it reads the aggregation map. */
  function EntryIn(aggs: map<string, Aggregate>, date: string): string -> Option<WatchlistItem> {
    symbol => if symbol in aggs then CandidateOf(symbol, aggs[symbol], date) else None
  }

  /** Over a map that holds each key's aggregate, the loop yields the candidates. */
  lemma {:induction false} EntriesOfAggregates(analyses: seq<AnalysisResult>, keys: seq<string>,
                                               aggs: map<string, Aggregate>, date: string)
    requires forall s :: s in keys ==> s in aggs && aggs[s] == AggregateOf(Group(analyses, s))
    ensures FilterMap(keys, EntryIn(aggs, date)) == FilterMap(keys, CandidateFor(analyses, date))
  {
    var f, g := EntryIn(aggs, date), CandidateFor(analyses, date);
    forall s | s in keys
      ensures f(s) == g(s)
    {
      assert aggs[s] == AggregateOf(Group(analyses, s));
    }
    FilterMapAgree(keys, f, g);
  }

  /** `watchlist_items` before sorting: one entry per surviving symbol, in the
      order the symbols were first seen. */
  function Candidates(analyses: seq<AnalysisResult>, date: string): seq<WatchlistItem> {
    FilterMap(SymbolsInOrder(analyses), CandidateFor(analyses, date))
  }

  /** `generate_watchlist`: the candidates sorted by bias score, largest first
      (stable), cut to `maxSize` with Python slice semantics. */
  function Watchlist(analyses: seq<AnalysisResult>, maxSize: int, date: string): seq<WatchlistItem> {
    Take(SortDesc(Candidates(analyses, date), ItemScore), maxSize)
  }

  /** Every candidate is the entry of its own symbol's group. */
  lemma CandidateFacts(analyses: seq<AnalysisResult>, date: string, w: WatchlistItem)
    requires w in Candidates(analyses, date)
    ensures w.stockSymbol in SymbolSeq(analyses)
    ensures EntryOfGroup(w, Group(analyses, w.stockSymbol), date)
  {
    var f := CandidateFor(analyses, date);
    var order := SymbolsInOrder(analyses);
    FilterMapMember(order, f, w);
    var s :| s in order && f(s) == Some(w);
    FirstSeenMember(SymbolSeq(analyses), s);
    CandidateOfGroup(Group(analyses, s), s, date);
  }

  /** A symbol of the input gets an entry exactly when its group averages at
      least the medium threshold and NEUTRAL is not its dominant direction. */
  lemma CandidateExists(analyses: seq<AnalysisResult>, date: string, symbol: string)
    requires symbol in SymbolSeq(analyses)
    ensures
      var g := Group(analyses, symbol);
      (exists w :: w in Candidates(analyses, date) && w.stockSymbol == symbol) <==>
        SumBias(g) / |g| as real >= BIAS_SCORE_MEDIUM_THRESHOLD && !DominantIs(g, NEUTRAL)
  {
    var g := Group(analyses, symbol);
    var f := CandidateFor(analyses, date);
    var order := SymbolsInOrder(analyses);
    CandidateOfGroupExists(g, symbol, date);
    if f(symbol).Some? {
      CandidateOfGroup(g, symbol, date);
      FirstSeenMember(SymbolSeq(analyses), symbol);
      FilterMapHas(order, f, symbol);
    } else {
      forall w | w in Candidates(analyses, date) ensures w.stockSymbol != symbol {
        FilterMapMember(order, f, w);
        var s :| s in order && f(s) == Some(w);
        FirstSeenMember(SymbolSeq(analyses), s);
        CandidateOfGroup(Group(analyses, s), s, date);
      }
    }
  }

  /** Candidates keep the first-seen order of their symbols, so no symbol
      appears twice. */
  lemma CandidateSymbols(analyses: seq<AnalysisResult>, date: string)
    ensures IsSubsequence(MapSeq(Candidates(analyses, date), ItemSymbol), SymbolsInOrder(analyses))
    ensures Distinct(MapSeq(Candidates(analyses, date), ItemSymbol))
  {
    var f := CandidateFor(analyses, date);
    forall s | f(s).Some? ensures ItemSymbol(f(s).value) == s {
      CandidateOfGroup(Group(analyses, s), s, date);
    }
    FilterMapSubsequence(SymbolsInOrder(analyses), f, ItemSymbol);
    SubsequenceDistinct(MapSeq(Candidates(analyses, date), ItemSymbol), SymbolsInOrder(analyses));
  }

  /** The ranking: sorted by bias score, largest first; a prefix of the
      sorted candidates, at most `maxSize` long; every entry a candidate. */
  lemma WatchlistRanked(analyses: seq<AnalysisResult>, maxSize: int, date: string)
    ensures var w := Watchlist(analyses, maxSize, date);
      var sorted := SortDesc(Candidates(analyses, date), ItemScore);
      && SortedDesc(w, ItemScore)
      && w == sorted[..|w|]
      && (maxSize >= 0 ==> |w| == Min(maxSize, |sorted|))
      && multiset(sorted) == multiset(Candidates(analyses, date))
  {
    TopSorted(Candidates(analyses, date), ItemScore, maxSize);
  }

  /** No symbol appears twice on the watchlist. */
  lemma WatchlistDistinct(analyses: seq<AnalysisResult>, maxSize: int, date: string)
    ensures Distinct(MapSeq(Watchlist(analyses, maxSize, date), ItemSymbol))
  {
    CandidateSymbols(analyses, date);
    TopDistinct(Candidates(analyses, date), ItemScore, maxSize, ItemSymbol);
  }

  /** Entries with equal bias scores keep the first-seen order of their symbols. */
  lemma CandidatesStable(analyses: seq<AnalysisResult>, date: string, v: real)
    ensures var c := Candidates(analyses, date);
      WithKey(SortDesc(c, ItemScore), ItemScore, v) == WithKey(c, ItemScore, v)
  {
    SortDescStable(Candidates(analyses, date), ItemScore, v);
  }

  /** Each entry of the watchlist is the entry of its symbol's group. */
  lemma WatchlistEntries(analyses: seq<AnalysisResult>, maxSize: int, date: string, w: WatchlistItem)
    requires w in Watchlist(analyses, maxSize, date)
    ensures w.stockSymbol in SymbolSeq(analyses)
    ensures EntryOfGroup(w, Group(analyses, w.stockSymbol), date)
  {
    var c := Candidates(analyses, date);
    var sorted := SortDesc(c, ItemScore);
    SortDescSpec(c, ItemScore);
    assert w in sorted;
    assert w in multiset(c);
    CandidateFacts(analyses, date, w);
  }

  // ---------------------------------------------------------------------------
  // One more analysis

  /** Seeing one more analysis appends its symbol to the key order when it is new. */
  lemma {:induction false} SymbolsStep(analyses: seq<AnalysisResult>, i: nat)
    requires i < |analyses|
    ensures var prev := SymbolsInOrder(analyses[..i]);
      var s := analyses[i].stockSymbol;
      SymbolsInOrder(analyses[..i + 1]) == if s in prev then prev else prev + [s]
  {
    var ks := SymbolSeq(analyses[..i + 1]);
    assert ks[..|ks| - 1] == SymbolSeq(analyses[..i]);
  }

  /** Seeing one more analysis appends it to its own symbol's group only. */
  lemma {:induction false} GroupStep(analyses: seq<AnalysisResult>, i: nat, s: string)
    requires i < |analyses|
    ensures Group(analyses[..i + 1], s) ==
      Group(analyses[..i], s) + (if analyses[i].stockSymbol == s then [analyses[i]] else [])
  {
    assert analyses[..i + 1][..i] == analyses[..i];
  }

  /** The keys of the aggregation dictionary after the first `i` analyses,
      in insertion order. */
  ghost predicate KeysUpTo(analyses: seq<AnalysisResult>, i: nat, keys: seq<string>, aggs: map<string, Aggregate>)
    requires i <= |analyses|
  {
    keys == SymbolsInOrder(analyses[..i]) && forall s :: s in aggs <==> s in keys
  }

  /** Each aggregate after the first `i` analyses is that of its symbol's group. */
  ghost predicate AggregatesUpTo(analyses: seq<AnalysisResult>, i: nat, aggs: map<string, Aggregate>)
    requires i <= |analyses|
  {
    forall s :: s in aggs ==> aggs[s] == AggregateOf(Group(analyses[..i], s))
  }

  /** The key order after one more pass of the aggregation loop: a new symbol
      becomes the last key. */
  lemma {:induction false} KeysStep(analyses: seq<AnalysisResult>, i: nat, keys: seq<string>, aggs: map<string, Aggregate>)
    requires i < |analyses| && KeysUpTo(analyses, i, keys, aggs)
    ensures var a := analyses[i];
      var s := a.stockSymbol;
      KeysUpTo(analyses, i + 1, if s in aggs then keys else keys + [s],
               aggs[s := AddAnalysis(if s in aggs then aggs[s] else EmptyAggregate, a)])
  {
    SymbolsStep(analyses, i);
    FirstSeenMember(SymbolSeq(analyses[..i]), analyses[i].stockSymbol);
  }

  /** The aggregates after one more pass of the aggregation loop: the analysis
      is added to its symbol's aggregate, which starts empty for a new symbol. */
  lemma {:induction false} AggregatesStep(analyses: seq<AnalysisResult>, i: nat, keys: seq<string>, aggs: map<string, Aggregate>)
    requires i < |analyses| && KeysUpTo(analyses, i, keys, aggs) && AggregatesUpTo(analyses, i, aggs)
    ensures var a := analyses[i];
      var s := a.stockSymbol;
      AggregatesUpTo(analyses, i + 1, aggs[s := AddAnalysis(if s in aggs then aggs[s] else EmptyAggregate, a)])
  {
    var a := analyses[i];
    var symbol := a.stockSymbol;
    var agg := if symbol in aggs then aggs[symbol] else EmptyAggregate;
    var aggs' := aggs[symbol := AddAnalysis(agg, a)];
    if symbol !in aggs {
      FirstSeenMember(SymbolSeq(analyses[..i]), symbol);
      assert Group(analyses[..i], symbol) == [];
    }
    forall t | t in aggs' ensures aggs'[t] == AggregateOf(Group(analyses[..i + 1], t)) {
      var before := if t == symbol then agg else aggs[t];
      GroupAggregateStep(analyses, i, t, before);
    }
  }

  /** The aggregate of one symbol's group after one more analysis. */
  lemma {:induction false} GroupAggregateStep(analyses: seq<AnalysisResult>, i: nat, s: string, before: Aggregate)
    requires i < |analyses|
    requires before == AggregateOf(Group(analyses[..i], s))
    ensures (if analyses[i].stockSymbol == s then AddAnalysis(before, analyses[i]) else before)
      == AggregateOf(Group(analyses[..i + 1], s))
  {
    var a := analyses[i];
    var g := Group(analyses[..i], s);
    GroupStep(analyses, i, s);
    if a.stockSymbol == s {
      assert Group(analyses[..i + 1], s) == g + [a];
      AggregateOfAppend(g, a);
    } else {
      assert Group(analyses[..i + 1], s) == g;
    }
  }
}
