/** Thresholds and sizes shared by the pipeline. */
module Constants {
  const BIAS_SCORE_HIGH_THRESHOLD: real := 2.5
  const BIAS_SCORE_MEDIUM_THRESHOLD: real := 1.5

  /** Default for the configurable watchlist size. */
  const MAX_WATCHLIST_SIZE: int := 10
  const MIN_NEWS_COUNT_FOR_WATCHLIST: int := 1

  /** Default for the configurable number of feed entries kept by the scraper. */
  const MAX_NEWS_ITEMS: int := 10
}
