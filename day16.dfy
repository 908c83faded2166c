/**
 * The Floor Will Be Lava: a beam enters a grid of empty space `.`, mirrors
 * `/` and `\` and splitters `|` and `-`. A tile is energized when a beam
 * passes through it. The beam is followed depth first, remembering every
 * (direction, cell) pair already seen; the first answer is the number of
 * energized tiles for a beam entering the top-left corner heading east, the
 * second the largest such number over every entry along the edges.
 */
module Day16 {
  import opened Grids
  import Text
  import opened Extrema

  /** A cell as (row, column). */
  datatype Cell = Cell(row: nat, col: nat)

  /** The four headings of a beam. The source writes each as a (row offset,
      column offset) pair; `RowOffset` and `ColOffset` give those pairs. */
  datatype Direction = North | South | East | West

  function RowOffset(d: Direction): int {
    match d
    case North => -1
    case South => 1
    case East => 0
    case West => 0
  }

  function ColOffset(d: Direction): int {
    match d
    case North => 0
    case South => 0
    case East => 1
    case West => -1
  }

  /** A beam: where it is and where it is heading. */
  datatype Beam = Beam(dir: Direction, cell: Cell)

  predicate InBounds(grid: Grid, cell: Cell) {
    cell.row < |grid| && cell.col < Width(grid)
  }

  /** `get_next_directions`: the headings of the beams that leave a tile
      entered heading `d`. */
  function NextDirections(tile: char, d: Direction): (ds: seq<Direction>)
    ensures 1 <= |ds| <= 2
    ensures |ds| == 2 <==> (tile == '-' && (d == North || d == South)) || (tile == '|' && (d == East || d == West))
    ensures tile != '-' && tile != '|' && tile != '/' && tile != '\\' ==> ds == [d]
    ensures tile == '-' && (d == East || d == West) ==> ds == [d]
    ensures tile == '|' && (d == North || d == South) ==> ds == [d]
  {
    match (tile, d)
    case ('-', North) => [East, West]
    case ('-', South) => [East, West]
    case ('|', East) => [North, South]
    case ('|', West) => [North, South]
    case ('/', North) => [East]
    case ('/', South) => [West]
    case ('/', East) => [North]
    case ('/', West) => [South]
    case ('\\', North) => [West]
    case ('\\', South) => [East]
    case ('\\', East) => [South]
    case ('\\', West) => [North]
    case _ => [d]
  }

  /** A mirror turns every heading by a quarter turn, and sends a turned beam
      back to where it came from: its map of headings is its own inverse, so
      a bijection of the four headings. */
  lemma MirrorIsInvolution(tile: char, d: Direction)
    requires tile == '/' || tile == '\\'
    ensures |NextDirections(tile, d)| == 1
    ensures NextDirections(tile, d)[0] != d
    ensures NextDirections(tile, NextDirections(tile, d)[0]) == [d]
  {
  }

  /** The two mirrors turn every heading the opposite ways. */
  lemma MirrorsTurnOppositeWays(d: Direction)
    ensures NextDirections('/', d)[0] != NextDirections('\\', d)[0]
    ensures RowOffset(NextDirections('/', d)[0]) == -RowOffset(NextDirections('\\', d)[0])
    ensures ColOffset(NextDirections('/', d)[0]) == -ColOffset(NextDirections('\\', d)[0])
  {
  }

  /** The beam leaving `cell` heading `d`, unless the step leaves the grid
      (the `checked_add_signed` and bounds checks of `traverse_grid`). */
  function Move(grid: Grid, cell: Cell, d: Direction): (beams: seq<Beam>)
    ensures |beams| <= 1
    ensures |beams| == 1 <==> 0 <= cell.row + RowOffset(d) < |grid| && 0 <= cell.col + ColOffset(d) < Width(grid)
    ensures |beams| == 1 ==> beams[0].dir == d && InBounds(grid, beams[0].cell)
    ensures |beams| == 1 ==> beams[0].cell.row == cell.row + RowOffset(d) && beams[0].cell.col == cell.col + ColOffset(d)
  {
    var row, col := cell.row + RowOffset(d), cell.col + ColOffset(d);
    if row < 0 || col < 0 then []
    else if row >= |grid| || col >= Width(grid) then []
    else [Beam(d, Cell(row, col))]
  }

  /** The beams leaving `cell` in each of the headings `ds`, in order. */
  function Moves(grid: Grid, cell: Cell, ds: seq<Direction>): (beams: seq<Beam>)
    ensures |beams| <= |ds|
    ensures forall k :: 0 <= k < |beams| ==> InBounds(grid, beams[k].cell)
  {
    if |ds| == 0 then [] else Moves(grid, cell, ds[..|ds| - 1]) + Move(grid, cell, ds[|ds| - 1])
  }

  /** Every beam is on the grid. */
  predicate AllInBounds(grid: Grid, beams: seq<Beam>) {
    forall k :: 0 <= k < |beams| ==> InBounds(grid, beams[k].cell)
  }

  /** The beams that the beam `b` gives rise to on the next tile. */
  function Successors(grid: Grid, b: Beam): (beams: seq<Beam>)
    requires IsRectangular(grid) && InBounds(grid, b.cell)
    ensures 0 <= |beams| <= 2 && AllInBounds(grid, beams)
  {
    Moves(grid, b.cell, NextDirections(grid[b.cell.row][b.cell.col], b.dir))
  }

  /** Every beam that can be on the grid. */
  function AllBeams(grid: Grid): set<Beam> {
    set d: Direction, r: nat, c: nat | d in {North, South, East, West} && r < |grid| && c < Width(grid) :: Beam(d, Cell(r, c))
  }

  lemma InAllBeams(grid: Grid, b: Beam)
    requires InBounds(grid, b.cell)
    ensures b in AllBeams(grid)
  {
    var d := b.dir;
    assert d == North || d == South || d == East || d == West;
    assert d in {North, South, East, West};
    assert Beam(d, Cell(b.cell.row, b.cell.col)) in AllBeams(grid);
  }

  /** The depth-first traversal of `traverse_grid`, with its call stack made
      explicit: the beams still to follow are `todo`, first one first, and
      `seen` is the `visited` set. A beam already seen is dropped; a new one
      is recorded and its successors are followed, in order, before the rest.
      The result is the final `visited` set. */
  function Explore(grid: Grid, todo: seq<Beam>, seen: set<Beam>): (visited: set<Beam>)
    requires IsRectangular(grid) && AllInBounds(grid, todo)
    ensures seen <= visited
    decreases AllBeams(grid) - seen, |todo|
  {
    if |todo| == 0 then seen
    else if todo[0] in seen then Explore(grid, todo[1..], seen)
    else
      InAllBeams(grid, todo[0]);
      Explore(grid, Successors(grid, todo[0]) + todo[1..], seen + {todo[0]})
  }

  /** Following two lists of beams one after the other is following their
      concatenation: the traversal of each successor in turn, sharing one
      `visited` set, is the traversal of all of them. */
  lemma {:induction false} ExploreAppend(grid: Grid, a: seq<Beam>, b: seq<Beam>, seen: set<Beam>)
    requires IsRectangular(grid) && AllInBounds(grid, a) && AllInBounds(grid, b)
    ensures Explore(grid, a + b, seen) == Explore(grid, b, Explore(grid, a, seen))
    decreases AllBeams(grid) - seen, |a|
  {
    if |a| > 0 {
      assert (a + b)[0] == a[0];
      assert (a + b)[1..] == a[1..] + b;
      if a[0] in seen {
        ExploreAppend(grid, a[1..], b, seen);
      } else {
        InAllBeams(grid, a[0]);
        var s := Successors(grid, a[0]);
        assert s + (a + b)[1..] == (s + a[1..]) + b;
        ExploreAppend(grid, s + a[1..], b, seen + {a[0]});
      }
    } else {
      assert a + b == b;
    }
  }

  /** Beams on the grid, each of whose successors is in the set as well. */
  ghost predicate IsClosed(grid: Grid, beams: set<Beam>)
    requires IsRectangular(grid)
  {
    forall b :: b in beams ==>
      (InBounds(grid, b.cell) && forall k :: 0 <= k < |Successors(grid, b)| ==> Successors(grid, b)[k] in beams)
  }

  /** Everything the traversal records is on the grid, includes every beam
      it was given, and the successors of every beam it newly records. */
  lemma {:induction false} ExploreCovers(grid: Grid, todo: seq<Beam>, seen: set<Beam>)
    requires IsRectangular(grid) && AllInBounds(grid, todo)
    ensures forall k :: 0 <= k < |todo| ==> todo[k] in Explore(grid, todo, seen)
    ensures forall b :: b in Explore(grid, todo, seen) - seen ==>
      (InBounds(grid, b.cell) && forall k :: 0 <= k < |Successors(grid, b)| ==> Successors(grid, b)[k] in Explore(grid, todo, seen))
    decreases AllBeams(grid) - seen, |todo|
  {
    if |todo| > 0 {
      var visited := Explore(grid, todo, seen);
      if todo[0] in seen {
        ExploreCovers(grid, todo[1..], seen);
        forall k | 0 <= k < |todo| ensures todo[k] in visited {
          if k > 0 { assert todo[k] == todo[1..][k - 1]; }
        }
      } else {
        InAllBeams(grid, todo[0]);
        var s := Successors(grid, todo[0]);
        var next := s + todo[1..];
        ExploreCovers(grid, next, seen + {todo[0]});
        assert visited == Explore(grid, next, seen + {todo[0]});
        forall k | 0 <= k < |todo| ensures todo[k] in visited {
          if k > 0 { assert todo[k] == next[|s| + k - 1]; }
        }
        forall k | 0 <= k < |s| ensures s[k] in visited {
          assert s[k] == next[k];
        }
      }
    }
  }

  /** The traversal records nothing beyond `seen` and a closed set holding
      the beams it was given: what it adds is what those beams reach. */
  lemma {:induction false} ExploreIsLeast(grid: Grid, todo: seq<Beam>, seen: set<Beam>, closed: set<Beam>)
    requires IsRectangular(grid) && AllInBounds(grid, todo) && IsClosed(grid, closed)
    requires forall k :: 0 <= k < |todo| ==> todo[k] in closed
    ensures Explore(grid, todo, seen) <= seen + closed
    decreases AllBeams(grid) - seen, |todo|
  {
    if |todo| > 0 {
      if todo[0] in seen {
        ExploreIsLeast(grid, todo[1..], seen, closed);
      } else {
        InAllBeams(grid, todo[0]);
        var s := Successors(grid, todo[0]);
        var next := s + todo[1..];
        forall k | 0 <= k < |next| ensures next[k] in closed {
          if k >= |s| { assert next[k] == todo[k - |s| + 1]; }
        }
        ExploreIsLeast(grid, next, seen + {todo[0]}, closed);
      }
    }
  }

  /** `traverse_grid`: follows the beam `direction` at `cell` and every beam
      it gives rise to, depth first, adding each new (direction, cell) pair
      to `visited` and stopping at one already there. */
  method TraverseGrid(grid: Grid, direction: Direction, cell: Cell, visited: set<Beam>) returns (visited': set<Beam>)
    requires IsRectangular(grid) && InBounds(grid, cell)
    ensures visited' == Explore(grid, [Beam(direction, cell)], visited)
    decreases AllBeams(grid) - visited, 1
  {
    var beam := Beam(direction, cell);
    assert [beam][1..] == [];
    if beam in visited {
      return visited;
    }
    InAllBeams(grid, beam);
    var ds := NextDirections(grid[cell.row][cell.col], direction);
    assert Successors(grid, beam) + [beam][1..] == Moves(grid, cell, ds);
    visited' := FollowDirections(grid, cell, ds, visited + {beam}, beam, visited);
  }

  /** The loop of `traverse_grid` over the headings `ds` leaving `cell`: each
      step that stays on the grid is followed in turn. `beam` is the beam
      being traversed, newly added to `outer`, the set before it. */
  method FollowDirections(grid: Grid, cell: Cell, ds: seq<Direction>, visited: set<Beam>,
                          ghost beam: Beam, ghost outer: set<Beam>) returns (visited': set<Beam>)
    requires IsRectangular(grid) && InBounds(grid, cell)
    requires beam in AllBeams(grid) && beam !in outer && outer + {beam} <= visited
    ensures visited' == Explore(grid, Moves(grid, cell, ds), visited)
    decreases AllBeams(grid) - outer, 0
  {
    visited' := visited;
    for i := 0 to |ds|
      invariant visited' == Explore(grid, Moves(grid, cell, ds[..i]), visited)
      invariant visited <= visited'
    {
      var nextRow, nextCol := cell.row + RowOffset(ds[i]), cell.col + ColOffset(ds[i]);
      if nextRow < 0 || nextCol < 0 {
        MoveOffGrid(grid, cell, ds, i, visited);
        continue;
      }
      if nextRow >= |grid| || nextCol >= Width(grid) {
        MoveOffGrid(grid, cell, ds, i, visited);
        continue;
      }
      MoveOnGrid(grid, cell, ds, i, visited, visited');
      VisitingShrinks(AllBeams(grid), outer, beam, visited');
      visited' := TraverseGrid(grid, ds[i], Cell(nextRow, nextCol), visited');
    }
    assert ds[..|ds|] == ds;
  }

  /** A heading whose step leaves the grid adds nothing to the traversal. */
  lemma MoveOffGrid(grid: Grid, cell: Cell, ds: seq<Direction>, i: nat, visited: set<Beam>)
    requires IsRectangular(grid) && i < |ds|
    requires !(0 <= cell.row + RowOffset(ds[i]) < |grid| && 0 <= cell.col + ColOffset(ds[i]) < Width(grid))
    ensures Explore(grid, Moves(grid, cell, ds[..i + 1]), visited) == Explore(grid, Moves(grid, cell, ds[..i]), visited)
  {
    MovesStep(grid, cell, ds, i);
  }

  /** A heading whose step stays on the grid continues the traversal so far
      with the one beam in that heading at the neighbouring cell. */
  lemma MoveOnGrid(grid: Grid, cell: Cell, ds: seq<Direction>, i: nat, visited: set<Beam>, current: set<Beam>)
    requires IsRectangular(grid) && i < |ds|
    requires 0 <= cell.row + RowOffset(ds[i]) < |grid| && 0 <= cell.col + ColOffset(ds[i]) < Width(grid)
    requires current == Explore(grid, Moves(grid, cell, ds[..i]), visited)
    ensures Explore(grid, Moves(grid, cell, ds[..i + 1]), visited) ==
            Explore(grid, [Beam(ds[i], Cell(cell.row + RowOffset(ds[i]), cell.col + ColOffset(ds[i])))], current)
  {
    MovesStep(grid, cell, ds, i);
    var m := Move(grid, cell, ds[i]);
    assert m == [Beam(ds[i], Cell(cell.row + RowOffset(ds[i]), cell.col + ColOffset(ds[i])))];
    ExploreAppend(grid, Moves(grid, cell, ds[..i]), m, visited);
  }

  /** Adding a new beam to the visited set shrinks what is left to visit. */
  lemma VisitingShrinks(all: set<Beam>, outer: set<Beam>, beam: Beam, visited: set<Beam>)
    requires beam in all && beam !in outer && outer + {beam} <= visited
    ensures all - visited < all - outer
  {
    assert beam in all - outer && beam !in all - visited;
  }

  /** The moves in the first `i + 1` headings are those in the first `i`
      followed by the move in heading `i`; an empty move adds nothing. */
  lemma MovesStep(grid: Grid, cell: Cell, ds: seq<Direction>, i: nat)
    requires i < |ds|
    ensures Moves(grid, cell, ds[..i + 1]) == Moves(grid, cell, ds[..i]) + Move(grid, cell, ds[i])
    ensures |Move(grid, cell, ds[i])| == 0 ==> Moves(grid, cell, ds[..i + 1]) == Moves(grid, cell, ds[..i])
  {
    assert ds[..i + 1][..i] == ds[..i];
  }

  /** The tiles the beams pass through. */
  function EnergizedCells(visited: set<Beam>): set<Cell> {
    set b | b in visited :: b.cell
  }

  /** The cells of a grid of `rows` by `cols`. */
  function CellsBelow(rows: nat, cols: nat): set<Cell> {
    set r: nat, c: nat | r < rows && c < cols :: Cell(r, c)
  }

  /** The cells of row `r` in the first `cols` columns. */
  function RowCells(r: nat, cols: nat): set<Cell> {
    set c: nat | c < cols :: Cell(r, c)
  }

  lemma {:induction false} RowCellsCount(r: nat, cols: nat)
    ensures |RowCells(r, cols)| == cols
  {
    if cols > 0 {
      RowCellsCount(r, cols - 1);
      assert RowCells(r, cols) == RowCells(r, cols - 1) + {Cell(r, cols - 1)};
    }
  }

  /** A grid of `rows` by `cols` has `rows * cols` cells. */
  lemma {:induction false} CellsBelowCount(rows: nat, cols: nat)
    ensures |CellsBelow(rows, cols)| == rows * cols
  {
    if rows > 0 {
      CellsBelowCount(rows - 1, cols);
      RowCellsCount(rows - 1, cols);
      var row := RowCells(rows - 1, cols);
      forall x | x in CellsBelow(rows, cols) ensures x in CellsBelow(rows - 1, cols) + row {
        if x.row < rows - 1 {
          assert x in CellsBelow(rows - 1, cols);
        } else {
          assert x in row;
        }
      }
      assert CellsBelow(rows, cols) == CellsBelow(rows - 1, cols) + row;
      assert CellsBelow(rows - 1, cols) * row == {};
      assert rows * cols == (rows - 1) * cols + cols;
    }
  }

  /** A subset is no larger than the set. */
  lemma {:induction false} SubsetSize<T>(a: set<T>, b: set<T>)
    requires a <= b
    ensures |a| <= |b|
    decreases |a|
  {
    if a != {} {
      var x :| x in a;
      SubsetSize(a - {x}, b - {x});
    }
  }

  /** The beams from the start, the smallest closed set holding it; the
      start itself is among them. */
  function Energized(grid: Grid, direction: Direction, cell: Cell): (beams: set<Beam>)
    requires IsRectangular(grid) && InBounds(grid, cell)
    ensures Beam(direction, cell) in beams
  {
    var todo := [Beam(direction, cell)];
    ExploreCovers(grid, todo, {});
    assert todo[0] in Explore(grid, todo, {});
    Explore(grid, todo, {})
  }

  /** The energized beams hold the start, are closed under the beam rules, and
      lie within every closed set holding the start: they are exactly the
      beams the start reaches. */
  lemma EnergizedIsReach(grid: Grid, direction: Direction, cell: Cell, closed: set<Beam>)
    requires IsRectangular(grid) && InBounds(grid, cell)
    ensures Beam(direction, cell) in Energized(grid, direction, cell)
    ensures IsClosed(grid, Energized(grid, direction, cell))
    ensures IsClosed(grid, closed) && Beam(direction, cell) in closed ==> Energized(grid, direction, cell) <= closed
  {
    var todo := [Beam(direction, cell)];
    ExploreCovers(grid, todo, {});
    assert todo[0] in Energized(grid, direction, cell);
    if IsClosed(grid, closed) && Beam(direction, cell) in closed {
      ExploreIsLeast(grid, todo, {}, closed);
    }
  }

  /** `count_energized_tiles`: the number of distinct cells among the beams
      followed from the start. */
  method CountEnergizedTiles(grid: Grid, direction: Direction, cell: Cell) returns (count: nat)
    requires IsRectangular(grid) && InBounds(grid, cell)
    ensures count == |EnergizedCells(Energized(grid, direction, cell))|
    ensures 1 <= count <= |grid| * Width(grid)
  {
    var visited := TraverseGrid(grid, direction, cell, {});
    var energized := set b | b in visited :: b.cell;
    count := |energized|;
    EnergizedIsReach(grid, direction, cell, {});
    assert cell in energized;
    assert energized <= CellsBelow(|grid|, Width(grid)) by {
      forall x | x in energized ensures x in CellsBelow(|grid|, Width(grid)) {
        var b :| b in visited && b.cell == x;
        assert InBounds(grid, b.cell);
      }
    }
    CellsBelowCount(|grid|, Width(grid));
    SubsetSize(energized, CellsBelow(|grid|, Width(grid)));
    SubsetSize({cell}, energized);
  }

  function ParseGrid(input: string): Grid {
    Text.Lines(input)
  }

  /** `part_1`: the beam enters the top-left corner heading east. */
  method Part1(input: string) returns (count: nat)
    requires IsRectangular(ParseGrid(input)) && Width(ParseGrid(input)) > 0
    ensures var grid := ParseGrid(input);
      count == |EnergizedCells(Energized(grid, East, Cell(0, 0)))| && 1 <= count <= |grid| * Width(grid)
  {
    count := CountEnergizedTiles(ParseGrid(input), East, Cell(0, 0));
  }

  /** The entries of `part_2`, in its order: heading north from every cell of
      the bottom row, south from the top row, east from the first column and
      west from the last one. */
  function EdgeEntries(grid: Grid): (entries: seq<Beam>)
    requires |grid| > 0 && Width(grid) > 0
    ensures |entries| == 2 * Width(grid) + 2 * |grid|
    ensures forall k :: 0 <= k < |entries| ==> InBounds(grid, entries[k].cell)
  {
    var rows, cols := |grid|, Width(grid);
    seq(cols, c requires 0 <= c < cols => Beam(North, Cell(rows - 1, c)))
    + seq(cols, c requires 0 <= c < cols => Beam(South, Cell(0, c)))
    + seq(rows, r requires 0 <= r < rows => Beam(East, Cell(r, 0)))
    + seq(rows, r requires 0 <= r < rows => Beam(West, Cell(r, cols - 1)))
  }

  /** The energized-tile count of one entry. */
  function EntryCount(grid: Grid, entry: Beam): nat
    requires IsRectangular(grid) && InBounds(grid, entry.cell)
  {
    |EnergizedCells(Energized(grid, entry.dir, entry.cell))|
  }

  /** The largest energized-tile count over the `entries`: they are mapped
      to their counts, and the `max` of those taken. */
  method BestEntry(grid: Grid, entries: seq<Beam>) returns (best: nat)
    requires IsRectangular(grid) && |entries| > 0 && AllInBounds(grid, entries)
    ensures exists k :: 0 <= k < |entries| && best == EntryCount(grid, entries[k])
    ensures forall k :: 0 <= k < |entries| ==> EntryCount(grid, entries[k]) <= best
  {
    var counts: seq<nat> := [];
    for i := 0 to |entries|
      invariant |counts| == i
      invariant forall k :: 0 <= k < i ==> counts[k] == EntryCount(grid, entries[k])
    {
      var count := CountEnergizedTiles(grid, entries[i].dir, entries[i].cell);
      counts := counts + [count];
    }
    best := Max(counts);
  }

  /** `part_2`: the largest count over every entry along the edges. */
  method Part2(input: string) returns (best: nat)
    requires IsRectangular(ParseGrid(input)) && |ParseGrid(input)| > 0 && Width(ParseGrid(input)) > 0
    ensures var grid := ParseGrid(input); var entries := EdgeEntries(grid);
      (exists k :: 0 <= k < |entries| && best == EntryCount(grid, entries[k]))
      && forall k :: 0 <= k < |entries| ==> EntryCount(grid, entries[k]) <= best
  {
    best := BestEntry(ParseGrid(input), EdgeEntries(ParseGrid(input)));
  }
}
