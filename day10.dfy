/**
 * Pipe Maze: a grid of pipe tiles holds one loop through the start tile `S`.
 * The loop is traced from `S`; the first answer is half its length and the
 * second the number of cells it encloses, found by a left-to-right parity
 * scan of each row.
 */
module Day10 {
  import opened Wrappers
  import opened Grids
  import Text

  /** A cell as (row, column). */
  datatype Cell = Cell(row: nat, col: nat)

  /** A step as (row offset, column offset). */
  datatype Direction = Direction(dr: int, dc: int)

  const North := Direction(-1, 0)
  const South := Direction(1, 0)
  const East := Direction(0, 1)
  const West := Direction(0, -1)

  /** Moving in a direction, the tiles the neighbouring cell may hold for the
      two to connect. */
  const ConnectingNorth: seq<char> := ['S', '|', 'F', '7']
  const ConnectingSouth: seq<char> := ['S', '|', 'L', 'J']
  const ConnectingEast: seq<char> := ['S', '-', 'J', '7']
  const ConnectingWest: seq<char> := ['S', '-', 'L', 'F']

  predicate InBounds(grid: Grid, cell: Cell) {
    cell.row < |grid| && cell.col < Width(grid)
  }

  function Tile(grid: Grid, cell: Cell): char
    requires IsRectangular(grid) && InBounds(grid, cell)
  {
    grid[cell.row][cell.col]
  }

  /** The two cells are one step apart horizontally or vertically. */
  predicate AreNeighbours(a: Cell, b: Cell) {
    (a.row == b.row && (a.col + 1 == b.col || b.col + 1 == a.col))
    || (a.col == b.col && (a.row + 1 == b.row || b.row + 1 == a.row))
  }

  function Opposite(d: Direction): Direction {
    Direction(-d.dr, -d.dc)
  }

  /** `get_adjacent_cell`: the cell one step away, when it lies on the grid;
      `None` when a coordinate would go below zero or past the last row or
      column. */
  function AdjacentCell(grid: Grid, cell: Cell, d: Direction): (r: Option<Cell>)
    ensures r.Some? <==> 0 <= cell.row + d.dr < |grid| && 0 <= cell.col + d.dc < Width(grid)
    ensures r.Some? ==> r.value.row == cell.row + d.dr && r.value.col == cell.col + d.dc
    ensures r.Some? ==> InBounds(grid, r.value)
    ensures r.Some? && d in [North, South, East, West] ==> AreNeighbours(cell, r.value)
  {
    var row, col := cell.row + d.dr, cell.col + d.dc;
    if row < 0 || col < 0 then None
    else if row >= |grid| || col >= Width(grid) then None
    else Some(Cell(row, col))
  }

  /** Stepping back from the adjacent cell leads to where the step began. */
  lemma AdjacentCellReturns(grid: Grid, cell: Cell, d: Direction)
    requires InBounds(grid, cell) && AdjacentCell(grid, cell, d).Some?
    ensures AdjacentCell(grid, AdjacentCell(grid, cell, d).value, Opposite(d)) == Some(cell)
  {
  }

  /** `get_adjacent_cell_if_connected`: the adjacent cell, when its tile is
      one of `tiles`. */
  function AdjacentIfConnected(grid: Grid, cell: Cell, d: Direction, tiles: seq<char>): (r: Option<Cell>)
    requires IsRectangular(grid)
    ensures r.Some? <==> AdjacentCell(grid, cell, d).Some? && Tile(grid, AdjacentCell(grid, cell, d).value) in tiles
    ensures r.Some? ==> r == AdjacentCell(grid, cell, d)
  {
    match AdjacentCell(grid, cell, d)
    case Some(adjacent) => if Tile(grid, adjacent) in tiles then Some(adjacent) else None
    case None => None
  }

  // ---------------------------------------------------------------------------
  // The pipe table
  // ---------------------------------------------------------------------------

  predicate IsPipe(tile: char) {
    tile == '|' || tile == '-' || tile == 'L' || tile == 'J' || tile == '7' || tile == 'F'
  }

  /** The two directions a pipe opens to, in the order `get_connected_cells`
      lists them. */
  function PipeDirections(tile: char): (ds: seq<Direction>)
    requires IsPipe(tile)
    ensures |ds| == 2 && ds[0] != ds[1]
  {
    match tile
    case '|' => [North, South]
    case '-' => [East, West]
    case 'L' => [North, East]
    case 'J' => [North, West]
    case '7' => [South, West]
    case _ => [South, East]
  }

  /** The connecting list for a step in direction `d`. */
  function ConnectingTiles(d: Direction): seq<char>
    requires d in [North, South, East, West]
  {
    if d == North then ConnectingNorth
    else if d == South then ConnectingSouth
    else if d == East then ConnectingEast
    else ConnectingWest
  }

  /** The two tables agree: a pipe opens toward `d` exactly when it is one of
      the tiles a step in the opposite direction connects to. */
  lemma PipeTableMatchesConnectingTiles(tile: char, d: Direction)
    requires IsPipe(tile) && d in [North, South, East, West]
    ensures d in PipeDirections(tile) <==> tile in ConnectingTiles(Opposite(d))
  {
  }

  /** `get_connected_cells` does not panic on this cell: it holds a pipe
      whose two neighbours lie on the grid, or the start. */
  predicate CanFollow(grid: Grid, cell: Cell)
    requires IsRectangular(grid) && InBounds(grid, cell)
  {
    var tile := Tile(grid, cell);
    tile == 'S'
    || (IsPipe(tile)
        && AdjacentCell(grid, cell, PipeDirections(tile)[0]).Some?
        && AdjacentCell(grid, cell, PipeDirections(tile)[1]).Some?)
  }

  /** The start: each neighbour whose tile connects back, looked at in the
      order north, south, east, west. */
  function StartConnections(grid: Grid, cell: Cell): (cells: seq<Cell>)
    requires IsRectangular(grid)
    ensures |cells| <= 4
    ensures forall d :: d in cells <==>
      (AdjacentIfConnected(grid, cell, North, ConnectingNorth) == Some(d)
       || AdjacentIfConnected(grid, cell, South, ConnectingSouth) == Some(d)
       || AdjacentIfConnected(grid, cell, East, ConnectingEast) == Some(d)
       || AdjacentIfConnected(grid, cell, West, ConnectingWest) == Some(d))
  {
    OptionList(AdjacentIfConnected(grid, cell, North, ConnectingNorth))
    + OptionList(AdjacentIfConnected(grid, cell, South, ConnectingSouth))
    + OptionList(AdjacentIfConnected(grid, cell, East, ConnectingEast))
    + OptionList(AdjacentIfConnected(grid, cell, West, ConnectingWest))
  }

  function OptionList(o: Option<Cell>): (s: seq<Cell>)
    ensures |s| <= 1
    ensures forall d :: d in s <==> o == Some(d)
  {
    if o.Some? then [o.value] else []
  }

  /** The two cells a pipe opens to, in table order: different neighbours on
      the grid. */
  function PipeCells(grid: Grid, cell: Cell): (cells: seq<Cell>)
    requires IsRectangular(grid) && InBounds(grid, cell) && IsPipe(Tile(grid, cell))
    requires AdjacentCell(grid, cell, PipeDirections(Tile(grid, cell))[0]).Some?
    requires AdjacentCell(grid, cell, PipeDirections(Tile(grid, cell))[1]).Some?
    ensures |cells| == 2 && cells[0] != cells[1]
    ensures forall d :: d in cells ==> InBounds(grid, d) && AreNeighbours(cell, d)
  {
    var ds := PipeDirections(Tile(grid, cell));
    [AdjacentCell(grid, cell, ds[0]).value, AdjacentCell(grid, cell, ds[1]).value]
  }

  /** `get_connected_cells`: the two cells a pipe opens to, or, for the
      start, the neighbours that connect back. Every one of them is a
      neighbour on the grid. */
  function ConnectedCells(grid: Grid, cell: Cell): (cells: seq<Cell>)
    requires IsRectangular(grid) && InBounds(grid, cell) && CanFollow(grid, cell)
    ensures forall d :: d in cells ==> InBounds(grid, d) && AreNeighbours(cell, d)
  {
    if Tile(grid, cell) == 'S' then StartConnections(grid, cell) else PipeCells(grid, cell)
  }

  // ---------------------------------------------------------------------------
  // The start and the loop
  // ---------------------------------------------------------------------------

  /** The first `S` at or below row `r`, in row-major order. */
  function StartFrom(grid: Grid, r: nat): (s: Option<Cell>)
    requires r <= |grid|
    ensures s.Some? ==>
      (r <= s.value.row < |grid| && s.value.col < |grid[s.value.row]|
       && grid[s.value.row][s.value.col] == 'S')
    ensures s.Some? ==> forall i :: r <= i < s.value.row ==> 'S' !in grid[i]
    ensures s.Some? ==> 'S' !in grid[s.value.row][..s.value.col]
    ensures s.None? <==> forall i :: r <= i < |grid| ==> 'S' !in grid[i]
    decreases |grid| - r
  {
    if r == |grid| then None
    else match Text.Find(grid[r], 'S')
      case Some(c) => Some(Cell(r, c))
      case None => StartFrom(grid, r + 1)
  }

  /** The start cell: the first `S` in row-major order. */
  function StartCell(grid: Grid): Option<Cell> {
    StartFrom(grid, 0)
  }

  /** `get_start_cell`: scans the rows from the top, each from the left, and
      stops at the first `S`; it panics when there is none. */
  method GetStartCell(grid: Grid) returns (cell: Cell)
    requires IsRectangular(grid) && StartCell(grid).Some?
    ensures cell == StartCell(grid).value
  {
    var row := 0;
    while row < |grid|
      invariant 0 <= row <= |grid|
      invariant StartFrom(grid, row) == StartCell(grid)
    {
      var col := 0;
      while col < Width(grid)
        invariant 0 <= col <= Width(grid)
        invariant 'S' !in grid[row][..col]
      {
        if grid[row][col] == 'S' {
          assert Text.Find(grid[row], 'S') == Some(col);
          return Cell(row, col);
        }
        assert grid[row][..col + 1] == grid[row][..col] + [grid[row][col]];
        col := col + 1;
      }
      assert grid[row][..col] == grid[row];
      row := row + 1;
    }
  }

  /** The cells of a path, as a set. */
  function Elements(path: seq<Cell>): set<Cell> {
    set c | c in path
  }

  /** The cells of the grid. */
  function AllCells(grid: Grid): set<Cell> {
    set r, c | 0 <= r < |grid| && 0 <= c < Width(grid) :: Cell(r, c)
  }

  /** No cell occurs twice. */
  predicate Distinct(path: seq<Cell>) {
    forall i, j :: 0 <= i < j < |path| ==> path[i] != path[j]
  }

  /** A path the loop can be at: distinct cells of the grid. */
  predicate IsPathOn(grid: Grid, path: seq<Cell>) {
    |path| >= 1 && Distinct(path) && forall i :: 0 <= i < |path| ==> InBounds(grid, path[i])
  }

  /** Visiting one more cell of the grid leaves fewer cells unvisited. */
  lemma VisitShrinks(grid: Grid, path: seq<Cell>, next: Cell)
    requires InBounds(grid, next) && next !in path
    ensures AllCells(grid) - Elements(path + [next]) < AllCells(grid) - Elements(path)
  {
    assert next in AllCells(grid) - Elements(path);
    assert Elements(path + [next]) == Elements(path) + {next};
  }

  /** Appending a cell that is on the grid and not yet visited keeps a path
      a path. */
  lemma ExtendPath(grid: Grid, path: seq<Cell>, next: Cell)
    requires IsPathOn(grid, path) && InBounds(grid, next) && next !in path
    ensures IsPathOn(grid, path + [next])
  {
  }

  /** The index of the first of `cells` not yet on the path: the `find` of
      `get_loop_path`. */
  function FirstNew(cells: seq<Cell>, path: seq<Cell>): (r: Option<nat>)
    ensures r.None? <==> forall j :: 0 <= j < |cells| ==> cells[j] in path
    ensures r.Some? ==> r.value < |cells| && cells[r.value] !in path
    ensures r.Some? ==> forall j :: 0 <= j < r.value ==> cells[j] in path
  {
    if |cells| == 0 then None
    else if cells[0] !in path then Some(0)
    else match FirstNew(cells[1..], path)
      case None => None
      case Some(i) => Some(i + 1)
  }

  /** The loop traced on from `path`: from its last cell, step to the first
      connected cell not yet visited, until there is none. `None` where the
      source panics: a cell reached that is neither a pipe nor the start, or
      a pipe that opens off the grid. The visited cells only grow, so the
      walk ends. */
  function Walk(grid: Grid, path: seq<Cell>): (r: Option<seq<Cell>>)
    requires IsRectangular(grid) && IsPathOn(grid, path)
    ensures r.Some? ==> IsPathOn(grid, r.value) && path <= r.value
    decreases AllCells(grid) - Elements(path)
  {
    var cell := path[|path| - 1];
    if !CanFollow(grid, cell) then None
    else
      var cells := ConnectedCells(grid, cell);
      match FirstNew(cells, path)
      case None => Some(path)
      case Some(i) =>
        VisitShrinks(grid, path, cells[i]);
        ExtendPath(grid, path, cells[i]);
        Walk(grid, path + [cells[i]])
  }

  /** `get_loop_path`: from the start, keeps stepping to the first connected
      cell not yet on the path, and stops when there is none. */
  method GetLoopPath(grid: Grid) returns (path: seq<Cell>)
    requires HasLoop(grid)
    ensures path == LoopPath(grid)
  {
    var cell := GetStartCell(grid);
    path := [cell];
    while true
      invariant IsPathOn(grid, path) && cell == path[|path| - 1]
      invariant Walk(grid, path) == Walk(grid, [StartCell(grid).value])
      decreases AllCells(grid) - Elements(path)
    {
      var cells := ConnectedCells(grid, cell);
      var next := FirstNew(cells, path);
      if next.None? {
        break;
      }
      VisitShrinks(grid, path, cells[next.value]);
      ExtendPath(grid, path, cells[next.value]);
      path := path + [cells[next.value]];
      cell := cells[next.value];
    }
  }

  /** Tracing the loop does not panic. */
  predicate HasLoop(grid: Grid) {
    IsRectangular(grid) && StartCell(grid).Some? && Walk(grid, [StartCell(grid).value]).Some?
  }

  /** The path traced from the start. */
  function LoopPath(grid: Grid): (path: seq<Cell>)
    requires HasLoop(grid)
    ensures IsPathOn(grid, path) && path[0] == StartCell(grid).value
  {
    Walk(grid, [StartCell(grid).value]).value
  }

  /** One step of the traced path: from cell `i` it goes to the first
      connected cell not yet visited, and at its end every connected cell has
      been visited. */
  predicate StepsAt(grid: Grid, p: seq<Cell>, i: nat)
    requires IsRectangular(grid) && IsPathOn(grid, p) && i < |p|
  {
    CanFollow(grid, p[i])
    && var cells := ConnectedCells(grid, p[i]);
    && (i + 1 < |p| ==>
          var next := FirstNew(cells, p[..i + 1]);
          next.Some? && cells[next.value] == p[i + 1])
    && (i + 1 == |p| ==> FirstNew(cells, p) == None)
  }

  /** The first step of the walk from `path` follows the rule of
      `get_loop_path`. */
  lemma WalkFirstStep(grid: Grid, path: seq<Cell>, p: seq<Cell>, i: nat)
    requires IsRectangular(grid) && IsPathOn(grid, path) && IsPathOn(grid, p)
    requires Walk(grid, path) == Some(p) && i == |path| - 1
    ensures StepsAt(grid, p, i)
  {
    var cells := ConnectedCells(grid, path[i]);
    var next := FirstNew(cells, path);
    assert CanFollow(grid, path[i]);
    if next.Some? {
      var path' := path + [cells[next.value]];
      VisitShrinks(grid, path, cells[next.value]);
      ExtendPath(grid, path, cells[next.value]);
      assert p == Walk(grid, path').value;
      assert path' <= p;
      assert p[..i + 1] == path;
      assert p[i] == path[i];
      assert p[i + 1] == path'[i + 1];
    } else {
      assert p == path;
    }
  }

  /** A walk longer than its starting path takes one more step, to a path
      from which it goes on the same way. */
  lemma WalkAdvances(grid: Grid, path: seq<Cell>) returns (path': seq<Cell>)
    requires IsRectangular(grid) && IsPathOn(grid, path) && Walk(grid, path).Some?
    requires |Walk(grid, path).value| > |path|
    ensures IsPathOn(grid, path') && |path'| == |path| + 1
    ensures Walk(grid, path') == Walk(grid, path)
    ensures AllCells(grid) - Elements(path') < AllCells(grid) - Elements(path)
  {
    var cells := ConnectedCells(grid, path[|path| - 1]);
    var next := FirstNew(cells, path);
    if next.None? {
      assert false;
    }
    path' := path + [cells[next.value]];
    VisitShrinks(grid, path, cells[next.value]);
    ExtendPath(grid, path, cells[next.value]);
  }

  /** Every step of the walk `p` from `path` on follows the rule of
      `get_loop_path`. */
  lemma {:induction false} WalkSteps(grid: Grid, path: seq<Cell>, p: seq<Cell>, i: nat)
    requires IsRectangular(grid) && IsPathOn(grid, path) && IsPathOn(grid, p)
    requires Walk(grid, path) == Some(p) && |path| - 1 <= i < |p|
    ensures StepsAt(grid, p, i)
    decreases AllCells(grid) - Elements(path)
  {
    if i > |path| - 1 {
      var path' := WalkAdvances(grid, path);
      WalkSteps(grid, path', p, i);
    } else {
      WalkFirstStep(grid, path, p, i);
    }
  }

  /** The loop path starts at the start cell, visits no cell twice, and each
      step follows the rule of `get_loop_path`. */
  lemma LoopPathSteps(grid: Grid, i: nat)
    requires HasLoop(grid) && i < |LoopPath(grid)|
    ensures StepsAt(grid, LoopPath(grid), i)
  {
    WalkSteps(grid, [StartCell(grid).value], LoopPath(grid), i);
  }

  /** `part_1`: the farthest point of the loop is half its length away. */
  method Part1(input: string) returns (steps: nat)
    requires HasLoop(ParseGrid(input))
    ensures steps == |LoopPath(ParseGrid(input))| / 2
  {
    var grid := ParseGrid(input);
    var path := GetLoopPath(grid);
    steps := |path| / 2;
  }

  // ---------------------------------------------------------------------------
  // The cells inside the loop
  // ---------------------------------------------------------------------------

  /** `does_cell_above_connect`: the cell opens north and the cell above it
      opens south. */
  function DoesCellAboveConnect(grid: Grid, cell: Cell): (b: bool)
    requires IsRectangular(grid) && InBounds(grid, cell)
    ensures b <==>
      (Tile(grid, cell) in ConnectingSouth && cell.row > 0
       && Tile(grid, Cell(cell.row - 1, cell.col)) in ConnectingNorth)
  {
    Tile(grid, cell) in ConnectingSouth
    && AdjacentIfConnected(grid, cell, North, ConnectingNorth).Some?
  }

  /** The number of loop cells left of column `c` in row `r` that connect
      upward: the walls crossed so far. */
  function Crossings(grid: Grid, loop: set<Cell>, r: nat, c: nat): nat
    requires IsRectangular(grid) && r < |grid| && c <= Width(grid)
  {
    if c == 0 then 0
    else
      var wall := Cell(r, c - 1) in loop && DoesCellAboveConnect(grid, Cell(r, c - 1));
      Crossings(grid, loop, r, c - 1) + (if wall then 1 else 0)
  }

  /** A cell off the loop is inside when an odd number of walls lies to its
      left. */
  predicate IsInside(grid: Grid, loop: set<Cell>, r: nat, c: nat)
    requires IsRectangular(grid) && r < |grid| && c < Width(grid)
  {
    Cell(r, c) !in loop && Crossings(grid, loop, r, c) % 2 == 1
  }

  /** The inside cells among the first `k` columns of row `r`. */
  function InsideInRow(grid: Grid, loop: set<Cell>, r: nat, k: nat): nat
    requires IsRectangular(grid) && r < |grid| && k <= Width(grid)
  {
    if k == 0 then 0
    else InsideInRow(grid, loop, r, k - 1) + (if IsInside(grid, loop, r, k - 1) then 1 else 0)
  }

  /** The inside cells of the first `k` rows. */
  function InsideCount(grid: Grid, loop: set<Cell>, k: nat): nat
    requires IsRectangular(grid) && k <= |grid|
  {
    if k == 0 then 0
    else InsideCount(grid, loop, k - 1) + InsideInRow(grid, loop, k - 1, Width(grid))
  }

  /** The loop cells among the first `k` columns of row `r`. */
  function LoopInRow(loop: set<Cell>, r: nat, k: nat): nat {
    if k == 0 then 0 else LoopInRow(loop, r, k - 1) + (if Cell(r, k - 1) in loop then 1 else 0)
  }

  /** A cell is inside or on the loop, never both: per row the two counts
      together never exceed the columns scanned. */
  lemma {:induction false} InsideAndLoopFitRow(grid: Grid, loop: set<Cell>, r: nat, k: nat)
    requires IsRectangular(grid) && r < |grid| && k <= Width(grid)
    ensures InsideInRow(grid, loop, r, k) + LoopInRow(loop, r, k) <= k
  {
    if k > 0 {
      InsideAndLoopFitRow(grid, loop, r, k - 1);
    }
  }

  /** The inside cells of the first `k` rows are at most the cells of those
      rows. */
  lemma {:induction false} InsideCountBound(grid: Grid, loop: set<Cell>, k: nat)
    requires IsRectangular(grid) && k <= |grid|
    ensures InsideCount(grid, loop, k) <= k * Width(grid)
  {
    if k > 0 {
      InsideCountBound(grid, loop, k - 1);
      InsideAndLoopFitRow(grid, loop, k - 1, Width(grid));
      assert k * Width(grid) == (k - 1) * Width(grid) + Width(grid);
    }
  }

  /** One row of the scan of `part_2`: `is_inside` flips at each loop cell
      that connects upward, and cells off the loop passed while inside are
      counted. */
  method CountInsideInRow(grid: Grid, loop: set<Cell>, row: nat) returns (count: nat)
    requires IsRectangular(grid) && row < |grid|
    ensures count == InsideInRow(grid, loop, row, Width(grid))
  {
    count := 0;
    var isInside := false;
    var col := 0;
    while col < Width(grid)
      invariant 0 <= col <= Width(grid)
      invariant isInside <==> Crossings(grid, loop, row, col) % 2 == 1
      invariant count == InsideInRow(grid, loop, row, col)
    {
      var cell := Cell(row, col);
      if cell in loop {
        if DoesCellAboveConnect(grid, cell) {
          isInside := !isInside;
        }
      } else if isInside {
        count := count + 1;
      }
      col := col + 1;
    }
  }

  /** The rows of `part_2`, scanned one after the other. */
  method CountInside(grid: Grid, loop: set<Cell>) returns (result: nat)
    requires IsRectangular(grid)
    ensures result == InsideCount(grid, loop, |grid|)
    ensures result <= |grid| * Width(grid)
  {
    result := 0;
    var row := 0;
    while row < |grid|
      invariant 0 <= row <= |grid|
      invariant result == InsideCount(grid, loop, row)
    {
      var count := CountInsideInRow(grid, loop, row);
      result := result + count;
      row := row + 1;
    }
    InsideCountBound(grid, loop, |grid|);
  }

  /** `part_2`: the cells enclosed by the loop. */
  method Part2(input: string) returns (result: nat)
    requires HasLoop(ParseGrid(input))
    ensures result == InsideCount(ParseGrid(input), Elements(LoopPath(ParseGrid(input))), |ParseGrid(input)|)
  {
    var grid := ParseGrid(input);
    var path := GetLoopPath(grid);
    result := CountInside(grid, Elements(path));
  }

  /** `parse_grid`: one row per line. */
  function ParseGrid(input: string): (grid: Grid)
    ensures |grid| == |Text.Lines(input)|
  {
    Text.Lines(input)
  }
}
