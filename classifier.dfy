/**
 * `is_empty_tile`: a tile is an unused slot when its grayscale values are
 * nearly flat and dark. Mean and population standard deviation come from the
 * imaging library; they are inputs here, as reals.
 */
module Classifier {

  /** The grayscale statistics of one tile. */
  datatype TileStats = TileStats(mean: real, stddev: real)

  /** A slot must be darker than this mean to count as empty. */
  const DarkMean: real := 40.0

  /** Near-flat (stddev below the threshold) and dark (mean below 40), both strictly. */
  predicate IsEmptyTile(stats: TileStats, threshold: real)
  {
    stats.stddev < threshold && stats.mean < DarkMean
  }

  /** Both conditions are needed, and together they suffice; both bounds are strict. */
  lemma EmptyTileRule(stats: TileStats, threshold: real)
    ensures stats.mean >= 40.0 ==> !IsEmptyTile(stats, threshold)
    ensures stats.stddev >= threshold ==> !IsEmptyTile(stats, threshold)
    ensures stats.stddev < threshold && stats.mean < 40.0 ==> IsEmptyTile(stats, threshold)
  {
  }

  /** A uniformly black tile (mean 0, stddev 0) is empty under any positive threshold. */
  lemma BlackTileIsEmpty(threshold: real)
    requires threshold > 0.0
    ensures IsEmptyTile(TileStats(0.0, 0.0), threshold)
  {
  }

  /** A uniformly bright tile (value 200) is never empty, whatever the threshold. */
  lemma BrightFlatTileIsNotEmpty(threshold: real)
    ensures !IsEmptyTile(TileStats(200.0, 0.0), threshold)
  {
  }
}
