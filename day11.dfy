/**
 * Cosmic Expansion: an image of galaxies `#` in empty space `.`, where
 * every row and every column without a galaxy counts as `factor` rows or
 * columns. The answer is the sum, over every pair of galaxies, of their
 * distance in the expanded image, moving in horizontal and vertical steps.
 */
module Day11 {
  import opened Grids
  import opened Sums
  import Text

  type Image = Grid

  /** A cell as (row, column). */
  datatype Cell = Cell(row: nat, col: nat)

  /** The order of Rust's tuples: by row, then by column. */
  predicate CellLess(a: Cell, b: Cell) {
    a.row < b.row || (a.row == b.row && a.col < b.col)
  }

  function AbsDiff(a: nat, b: nat): nat {
    if a < b then b - a else a - b
  }

  /** How many of `lines` lie in `lo..hi` (`Range::contains`). */
  function CountInRange(lines: seq<nat>, lo: nat, hi: nat): (n: nat)
    ensures n <= |lines|
  {
    if |lines| == 0 then 0
    else (if lo <= lines[0] < hi then 1 else 0) + CountInRange(lines[1..], lo, hi)
  }

  /** `calculate_distance_between_cells`: the distance in rows and columns,
      each empty row or column crossed counting `factor` times. */
  function Distance(a: Cell, b: Cell, factor: nat, emptyRows: seq<nat>, emptyCols: seq<nat>): (d: nat)
    requires factor >= 1
    ensures AbsDiff(a.row, b.row) + AbsDiff(a.col, b.col) <= d
  {
    var rowLo, rowHi := if a.row < b.row then a.row else b.row, if a.row < b.row then b.row else a.row;
    var colLo, colHi := if a.col < b.col then a.col else b.col, if a.col < b.col then b.col else a.col;
    var rowCrossings := CountInRange(emptyRows, rowLo, rowHi);
    var colCrossings := CountInRange(emptyCols, colLo, colHi);
    var rowDistance := AbsDiff(a.row, b.row) + Stretch(rowCrossings, factor - 1);
    var colDistance := AbsDiff(a.col, b.col) + Stretch(colCrossings, factor - 1);
    rowDistance + colDistance
  }

  /** Where a row (or column) `x` lands in the expanded image: every empty
      line before it adds `factor - 1`. */
  function Expanded(x: nat, empties: seq<nat>, factor: nat): nat
    requires factor >= 1
  {
    x + Stretch(CountInRange(empties, 0, x), factor - 1)
  }

  /** The extra rows `count` expanded lines add, each `extra` more than one. */
  function Stretch(count: nat, extra: nat): nat {
    count * extra
  }

  lemma StretchAdd(a: nat, b: nat, extra: nat)
    ensures Stretch(a + b, extra) == Stretch(a, extra) + Stretch(b, extra)
  {
  }

  /** Counting in `lo..hi` is counting in `lo..mid` and in `mid..hi`. */
  lemma {:induction false} CountInRangeSplit(lines: seq<nat>, lo: nat, mid: nat, hi: nat)
    requires lo <= mid <= hi
    ensures CountInRange(lines, lo, hi) == CountInRange(lines, lo, mid) + CountInRange(lines, mid, hi)
  {
    if |lines| > 0 {
      CountInRangeSplit(lines[1..], lo, mid, hi);
    }
  }

  /** Along one axis, the expanded distance is the distance between the
      expanded positions. */
  lemma AxisDistance(x: nat, y: nat, empties: seq<nat>, factor: nat)
    requires factor >= 1 && x <= y
    ensures Expanded(y, empties, factor) - Expanded(x, empties, factor)
      == (y - x) + Stretch(CountInRange(empties, x, y), factor - 1)
  {
    CountInRangeSplit(empties, 0, x, y);
    StretchAdd(CountInRange(empties, 0, x), CountInRange(empties, x, y), factor - 1);
  }

  /** The distance is the plain Manhattan distance between the two cells'
      positions in the expanded image. */
  lemma DistanceInExpandedImage(a: Cell, b: Cell, factor: nat, emptyRows: seq<nat>, emptyCols: seq<nat>)
    requires factor >= 1
    ensures Distance(a, b, factor, emptyRows, emptyCols)
      == AbsDiff(Expanded(a.row, emptyRows, factor), Expanded(b.row, emptyRows, factor))
       + AbsDiff(Expanded(a.col, emptyCols, factor), Expanded(b.col, emptyCols, factor))
  {
    if a.row <= b.row { AxisDistance(a.row, b.row, emptyRows, factor); } else { AxisDistance(b.row, a.row, emptyRows, factor); }
    if a.col <= b.col { AxisDistance(a.col, b.col, emptyCols, factor); } else { AxisDistance(b.col, a.col, emptyCols, factor); }
  }

  /** The distance does not depend on the order of the two cells, and a cell
      is at distance zero from itself. */
  lemma DistanceSymmetric(a: Cell, b: Cell, factor: nat, emptyRows: seq<nat>, emptyCols: seq<nat>)
    requires factor >= 1
    ensures Distance(a, b, factor, emptyRows, emptyCols) == Distance(b, a, factor, emptyRows, emptyCols)
    ensures Distance(a, a, factor, emptyRows, emptyCols) == 0
  {
    DistanceInExpandedImage(a, b, factor, emptyRows, emptyCols);
    DistanceInExpandedImage(b, a, factor, emptyRows, emptyCols);
    assert CountInRange(emptyRows, a.row, a.row) == 0 by { CountInRangeEmpty(emptyRows, a.row); }
    assert CountInRange(emptyCols, a.col, a.col) == 0 by { CountInRangeEmpty(emptyCols, a.col); }
  }

  lemma {:induction false} CountInRangeEmpty(lines: seq<nat>, x: nat)
    ensures CountInRange(lines, x, x) == 0
  {
    if |lines| > 0 {
      CountInRangeEmpty(lines[1..], x);
    }
  }

  /** Without expansion the distance is the Manhattan distance. */
  lemma DistanceWithoutExpansion(a: Cell, b: Cell, emptyRows: seq<nat>, emptyCols: seq<nat>)
    ensures Distance(a, b, 1, emptyRows, emptyCols) == AbsDiff(a.row, b.row) + AbsDiff(a.col, b.col)
  {
  }

  /** The distance never shrinks as the expansion grows. */
  lemma DistanceGrowsWithFactor(a: Cell, b: Cell, f: nat, g: nat, emptyRows: seq<nat>, emptyCols: seq<nat>)
    requires 1 <= f <= g
    ensures Distance(a, b, f, emptyRows, emptyCols) <= Distance(a, b, g, emptyRows, emptyCols)
  {
    var rowLo, rowHi := if a.row < b.row then a.row else b.row, if a.row < b.row then b.row else a.row;
    var colLo, colHi := if a.col < b.col then a.col else b.col, if a.col < b.col then b.col else a.col;
    var r, c := CountInRange(emptyRows, rowLo, rowHi), CountInRange(emptyCols, colLo, colHi);
    StretchMonotone(r, f - 1, g - 1);
    StretchMonotone(c, f - 1, g - 1);
  }

  lemma StretchMonotone(k: nat, x: nat, y: nat)
    requires x <= y
    ensures Stretch(k, x) <= Stretch(k, y)
  {
  }

  predicate IsGalaxy(image: Image, r: nat, c: nat)
    requires r < |image| && c < |image[r]|
  {
    image[r][c] == '#'
  }

  /** Row `r` holds no galaxy. */
  predicate RowIsEmpty(image: Image, r: nat)
    requires IsRectangular(image) && r < |image|
  {
    forall c :: 0 <= c < Width(image) ==> !IsGalaxy(image, r, c)
  }

  /** Column `c` holds no galaxy. */
  predicate ColIsEmpty(image: Image, c: nat)
    requires IsRectangular(image) && c < Width(image)
  {
    forall r :: 0 <= r < |image| ==> !IsGalaxy(image, r, c)
  }

  predicate StrictlyIncreasing(xs: seq<nat>) {
    forall i, j :: 0 <= i < j < |xs| ==> xs[i] < xs[j]
  }

  /** The empty rows among the first `k`, in ascending order. */
  function EmptyRowsBefore(image: Image, k: nat): (rows: seq<nat>)
    requires IsRectangular(image) && k <= |image|
    ensures StrictlyIncreasing(rows)
    ensures forall i :: 0 <= i < |rows| ==> rows[i] < k
    ensures forall x: nat :: x in rows <==> x < k && RowIsEmpty(image, x)
  {
    if k == 0 then []
    else EmptyRowsBefore(image, k - 1) + (if RowIsEmpty(image, k - 1) then [k - 1] else [])
  }

  /** The empty columns among the first `k`, in ascending order. */
  function EmptyColsBefore(image: Image, k: nat): (cols: seq<nat>)
    requires IsRectangular(image) && k <= Width(image)
    ensures StrictlyIncreasing(cols)
    ensures forall i :: 0 <= i < |cols| ==> cols[i] < k
    ensures forall x: nat :: x in cols <==> x < k && ColIsEmpty(image, x)
  {
    if k == 0 then []
    else EmptyColsBefore(image, k - 1) + (if ColIsEmpty(image, k - 1) then [k - 1] else [])
  }

  /** `get_lines_without_galaxies`: the empty rows and the empty columns,
      each list ascending, holding exactly the lines without a galaxy. */
  function GetLinesWithoutGalaxies(image: Image): (lines: (seq<nat>, seq<nat>))
    requires |image| > 0 && IsRectangular(image)
    ensures StrictlyIncreasing(lines.0) && StrictlyIncreasing(lines.1)
    ensures forall x: nat :: x in lines.0 <==> x < |image| && RowIsEmpty(image, x)
    ensures forall x: nat :: x in lines.1 <==> x < Width(image) && ColIsEmpty(image, x)
  {
    (EmptyRowsBefore(image, |image|), EmptyColsBefore(image, Width(image)))
  }

  /** Cells in strictly ascending order. */
  predicate Ascending(cells: seq<Cell>) {
    forall i, j :: 0 <= i < j < |cells| ==> CellLess(cells[i], cells[j])
  }

  /** The galaxies of row `r` in its first `k` columns, left to right. */
  function GalaxiesInRow(image: Image, r: nat, k: nat): (cells: seq<Cell>)
    requires IsRectangular(image) && r < |image| && k <= Width(image)
    ensures Ascending(cells)
    ensures forall i :: 0 <= i < |cells| ==> cells[i].row == r && cells[i].col < k
    ensures forall c :: c in cells <==> c.row == r && c.col < k && IsGalaxy(image, r, c.col)
  {
    if k == 0 then []
    else GalaxiesInRow(image, r, k - 1) + (if IsGalaxy(image, r, k - 1) then [Cell(r, k - 1)] else [])
  }

  /** The galaxies of the first `k` rows, in row-major order. */
  function GalaxiesAbove(image: Image, k: nat): (cells: seq<Cell>)
    requires IsRectangular(image) && k <= |image|
    ensures Ascending(cells)
    ensures forall i :: 0 <= i < |cells| ==> cells[i].row < k
    ensures forall c :: c in cells <==> c.row < k && c.col < Width(image) && IsGalaxy(image, c.row, c.col)
  {
    if k == 0 then []
    else
      var above, row := GalaxiesAbove(image, k - 1), GalaxiesInRow(image, k - 1, Width(image));
      assert forall i, j :: 0 <= i < |above| && 0 <= j < |row| ==> CellLess(above[i], row[j]);
      above + row
  }

  /** Every galaxy of the image, in row-major order. */
  function GalaxyCells(image: Image): seq<Cell>
    requires IsRectangular(image)
  {
    GalaxiesAbove(image, |image|)
  }

  /** `get_galaxy_cells`: scans the rows top to bottom, each left to right,
      collecting the galaxies. */
  method GetGalaxyCells(image: Image) returns (cells: seq<Cell>)
    requires IsRectangular(image)
    ensures cells == GalaxyCells(image)
    ensures Ascending(cells)
    ensures forall c :: c in cells <==> c.row < |image| && c.col < Width(image) && IsGalaxy(image, c.row, c.col)
  {
    cells := [];
    for row := 0 to |image|
      invariant cells == GalaxiesAbove(image, row)
    {
      cells := ScanRow(image, row, cells);
      assert GalaxiesAbove(image, row + 1) == GalaxiesAbove(image, row) + GalaxiesInRow(image, row, Width(image));
    }
  }

  /** The inner loop of `get_galaxy_cells`: one row left to right, each
      galaxy pushed after the cells found so far. */
  method ScanRow(image: Image, row: nat, found: seq<Cell>) returns (cells: seq<Cell>)
    requires IsRectangular(image) && row < |image|
    ensures cells == found + GalaxiesInRow(image, row, Width(image))
  {
    cells := found;
    for col := 0 to |image[0]|
      invariant cells == found + GalaxiesInRow(image, row, col)
    {
      if image[row][col] == '#' {
        cells := cells + [Cell(row, col)];
      }
    }
  }

  /** The pair in ascending order. */
  function Ordered(a: Cell, b: Cell): (Cell, Cell) {
    if CellLess(a, b) then (a, b) else (b, a)
  }

  /** `get_galaxy_pairs`: every pair of galaxies, put in ascending order and
      collected into a set, except a galaxy paired with itself. */
  function GalaxyPairs(cells: seq<Cell>): (pairs: set<(Cell, Cell)>)
    ensures forall p :: p in pairs ==> p.0 in cells && p.1 in cells && CellLess(p.0, p.1)
  {
    set a, b | a in cells && b in cells && Ordered(a, b).0 != Ordered(a, b).1 :: Ordered(a, b)
  }

  /** A pair is in the set exactly when both are galaxies and the first
      comes strictly before the second. */
  lemma GalaxyPairsMembers(cells: seq<Cell>, p: (Cell, Cell))
    ensures p in GalaxyPairs(cells) <==> p.0 in cells && p.1 in cells && CellLess(p.0, p.1)
  {
    if p.0 in cells && p.1 in cells && CellLess(p.0, p.1) {
      assert Ordered(p.0, p.1) == p;
    }
  }

  /** The pairs of `cells` whose second cell is `x`. */
  function PairsWith(cells: seq<Cell>, x: Cell): set<(Cell, Cell)> {
    set a | a in cells :: (a, x)
  }

  lemma {:induction false} PairsWithCount(cells: seq<Cell>, x: Cell)
    requires Ascending(cells)
    ensures |PairsWith(cells, x)| == |cells|
  {
    if |cells| > 0 {
      var last := |cells| - 1;
      var init := cells[..last];
      assert Ascending(init);
      PairsWithCount(init, x);
      assert cells == init + [cells[last]];
      assert PairsWith(cells, x) == PairsWith(init, x) + {(cells[last], x)};
      assert cells[last] !in init by {
        forall i | 0 <= i < |init| ensures init[i] != cells[last] {
          assert CellLess(cells[i], cells[last]);
        }
      }
    }
  }

  /** Every one of `cells` comes before `x`. */
  predicate AllBefore(cells: seq<Cell>, x: Cell) {
    forall i :: 0 <= i < |cells| ==> CellLess(cells[i], x)
  }

  /** A galaxy after all the others adds its pairs with each of them, none of
      them a pair already there. */
  lemma GalaxyPairsSnoc(init: seq<Cell>, x: Cell)
    requires AllBefore(init, x)
    ensures GalaxyPairs(init + [x]) == GalaxyPairs(init) + PairsWith(init, x)
    ensures GalaxyPairs(init) * PairsWith(init, x) == {}
  {
    var cells := init + [x];
    assert forall c :: c in cells <==> c in init || c == x;
    forall p | p in GalaxyPairs(cells) ensures p in GalaxyPairs(init) + PairsWith(init, x) {
      GalaxyPairsMembers(cells, p);
      GalaxyPairsMembers(init, p);
    }
    forall p | p in GalaxyPairs(init) + PairsWith(init, x) ensures p in GalaxyPairs(cells) {
      GalaxyPairsMembers(cells, p);
      GalaxyPairsMembers(init, p);
      if p in PairsWith(init, x) {
        var i :| 0 <= i < |init| && init[i] == p.0;
        assert CellLess(init[i], x);
      }
    }
    forall p | p in PairsWith(init, x) ensures p !in GalaxyPairs(init) {
      GalaxyPairsMembers(init, p);
    }
  }

  /** Distinct galaxies in ascending order give `n * (n - 1) / 2` pairs. */
  lemma {:induction false} GalaxyPairsCount(cells: seq<Cell>)
    requires Ascending(cells)
    ensures |GalaxyPairs(cells)| == |cells| * (|cells| - 1) / 2
  {
    if |cells| > 0 {
      var last := |cells| - 1;
      var init, x := cells[..last], cells[last];
      assert Ascending(init);
      assert AllBefore(init, x);
      assert cells == init + [x];
      GalaxyPairsCount(init);
      PairsWithCount(init, x);
      GalaxyPairsSnoc(init, x);
      HalfProductStep(last);
    }
  }

  /** `n * (n - 1) / 2` grows by `n` from `n` to `n + 1`. */
  lemma HalfProductStep(n: nat)
    ensures (n + 1) * n / 2 == n * (n - 1) / 2 + n
  {
    var m := n * (n - 1);
    assert (n + 1) * n == m + 2 * n;
  }

  function ParseImage(input: string): Image {
    Text.Lines(input)
  }

  /** The distance of one pair, for the given expansion. */
  function PairDistance(factor: nat, emptyRows: seq<nat>, emptyCols: seq<nat>): ((Cell, Cell)) -> nat
    requires factor >= 1
  {
    (p: (Cell, Cell)) => Distance(p.0, p.1, factor, emptyRows, emptyCols)
  }

  /** `sum_path_lengths_between_galaxies`: the distances of all pairs added
      up, in the unspecified order of the `HashSet`. */
  ghost function SumPathLengths(input: string, factor: nat): (sum: int)
    requires factor >= 1 && |ParseImage(input)| > 0 && IsRectangular(ParseImage(input))
    ensures sum >= 0
  {
    var image := ParseImage(input);
    var lines := GetLinesWithoutGalaxies(image);
    SetSumNonNegative(GalaxyPairs(GalaxyCells(image)), PairDistance(factor, lines.0, lines.1));
    SetSum(GalaxyPairs(GalaxyCells(image)), PairDistance(factor, lines.0, lines.1))
  }

  function Manhattan(p: (Cell, Cell)): int {
    AbsDiff(p.0.row, p.1.row) + AbsDiff(p.0.col, p.1.col)
  }

  /** Without expansion, the sum is that of the Manhattan distances. */
  lemma SumWithoutExpansion(input: string)
    requires |ParseImage(input)| > 0 && IsRectangular(ParseImage(input))
    ensures SumPathLengths(input, 1)
      == SetSum(GalaxyPairs(GalaxyCells(ParseImage(input))), Manhattan)
  {
    var image := ParseImage(input);
    var lines := GetLinesWithoutGalaxies(image);
    SetSumCongruent(GalaxyPairs(GalaxyCells(image)), PairDistance(1, lines.0, lines.1),
      Manhattan);
  }

  /** A larger expansion factor never gives a smaller sum. */
  lemma SumGrowsWithFactor(input: string, f: nat, g: nat)
    requires 1 <= f <= g && |ParseImage(input)| > 0 && IsRectangular(ParseImage(input))
    ensures SumPathLengths(input, f) <= SumPathLengths(input, g)
  {
    var image := ParseImage(input);
    var lines := GetLinesWithoutGalaxies(image);
    var pairs := GalaxyPairs(GalaxyCells(image));
    forall p | p in pairs
      ensures PairDistance(f, lines.0, lines.1)(p) <= PairDistance(g, lines.0, lines.1)(p)
    {
      DistanceGrowsWithFactor(p.0, p.1, f, g, lines.0, lines.1);
    }
    SetSumMonotone(pairs, PairDistance(f, lines.0, lines.1), PairDistance(g, lines.0, lines.1));
  }

  /** `part_1`: every empty row and column counts twice; the sum is at least
      that of the plain Manhattan distances. */
  ghost function Part1(input: string): (r: int)
    requires |ParseImage(input)| > 0 && IsRectangular(ParseImage(input))
    ensures r >= SetSum(GalaxyPairs(GalaxyCells(ParseImage(input))), Manhattan)
  {
    SumWithoutExpansion(input);
    SumGrowsWithFactor(input, 1, 2);
    SumPathLengths(input, 2)
  }

  /** `part_2`: every empty row and column counts a million times; the sum
      is at least that of part 1. */
  ghost function Part2(input: string): (r: int)
    requires |ParseImage(input)| > 0 && IsRectangular(ParseImage(input))
    ensures r >= Part1(input)
  {
    SumGrowsWithFactor(input, 2, 1000000);
    SumPathLengths(input, 1000000)
  }
}
