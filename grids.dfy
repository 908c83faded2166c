/** Character grids (`Vec<Vec<char>>` in the source), shared by the grid puzzles. */
module Grids {
  type Grid = seq<seq<char>>

  /** Number of columns, read from the first row as the source does. */
  function Width(g: Grid): nat {
    if |g| == 0 then 0 else |g[0]|
  }

  /** Every row is as long as the first one. */
  predicate IsRectangular(g: Grid) {
    forall r :: 0 <= r < |g| ==> |g[r]| == Width(g)
  }

  /** As many columns as rows, in every row. */
  predicate IsSquare(g: Grid) {
    forall r :: 0 <= r < |g| ==> |g[r]| == |g|
  }
}
