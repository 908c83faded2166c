/**
 * Gear Ratios: an engine schematic is a grid of digits, `.` and symbols.
 * Every maximal run of digits in a row is a number; it is a part number
 * when one of its digits touches a symbol (anything but a digit or `.`)
 * in any of the eight directions. The first answer sums the part numbers;
 * the second sums, over every `*` touched by exactly two numbers, the
 * product of those two numbers.
 */
module Day03 {
  import opened Grids
  import opened Sums
  import opened Text

  /** A cell as (row, column). */
  datatype Cell = Cell(row: nat, col: nat)

  const GearSymbol := '*'

  predicate InGrid(lines: Grid, cell: Cell) {
    cell.row < |lines| && cell.col < Width(lines)
  }

  /** `cell` is one of the eight cells around (row, col). */
  predicate IsAdjacent(cell: Cell, row: nat, col: nat) {
    cell != Cell(row, col) && -1 <= cell.row - row <= 1 && -1 <= cell.col - col <= 1
  }

  /** The offsets of the eight neighbours, as the source lists them: the
      row above left to right, left, right, then the row below. */
  const Offsets: seq<(int, int)> := [(-1, -1), (-1, 0), (-1, 1), (0, -1), (0, 1), (1, -1), (1, 0), (1, 1)]

  /** The cell at `offset` from (row, col) when it lies on the grid, else
      nothing: `checked_add_signed` fails below zero, and the row and column
      must be below the number of lines and the length of the first line. */
  function CellAt(lines: Grid, row: nat, col: nat, offset: (int, int)): (cells: seq<Cell>)
    ensures |cells| <= 1
  {
    var r, c := row + offset.0, col + offset.1;
    if 0 <= r < |lines| && 0 <= c < Width(lines) then [Cell(r, c)] else []
  }

  /** The `filter_map` over a list of offsets. */
  function CellsAt(lines: Grid, row: nat, col: nat, offsets: seq<(int, int)>): (cells: seq<Cell>)
    ensures forall i :: 0 <= i < |cells| ==> InGrid(lines, cells[i])
  {
    if |offsets| == 0 then []
    else CellsAt(lines, row, col, offsets[..|offsets| - 1]) + CellAt(lines, row, col, offsets[|offsets| - 1])
  }

  /** `get_adjacent_cells`: the neighbours of (row, col) on the grid. */
  function AdjacentCells(lines: Grid, row: nat, col: nat): (cells: seq<Cell>)
    ensures forall i :: 0 <= i < |cells| ==> InGrid(lines, cells[i])
  {
    CellsAt(lines, row, col, Offsets)
  }

  /** A cell is kept exactly when it is on the grid at one of the offsets. */
  lemma {:induction false} CellsAtMembers(lines: Grid, row: nat, col: nat, offsets: seq<(int, int)>, cell: Cell)
    ensures cell in CellsAt(lines, row, col, offsets) <==>
              InGrid(lines, cell) && (cell.row - row, cell.col - col) in offsets
  {
    if |offsets| > 0 {
      var init := offsets[..|offsets| - 1];
      CellsAtMembers(lines, row, col, init, cell);
      assert offsets == init + [offsets[|offsets| - 1]];
    }
  }

  /** Different offsets give different cells. */
  lemma {:induction false} CellsAtDistinct(lines: Grid, row: nat, col: nat, offsets: seq<(int, int)>)
    requires forall i, j :: 0 <= i < j < |offsets| ==> offsets[i] != offsets[j]
    ensures var cells := CellsAt(lines, row, col, offsets);
      forall i, j :: 0 <= i < j < |cells| ==> cells[i] != cells[j]
  {
    if |offsets| > 0 {
      var init := offsets[..|offsets| - 1];
      var last := offsets[|offsets| - 1];
      CellsAtDistinct(lines, row, col, init);
      var before := CellsAt(lines, row, col, init);
      var added := CellAt(lines, row, col, last);
      var cells := before + added;
      assert CellsAt(lines, row, col, offsets) == cells;
      if |added| == 1 {
        CellsAtMembers(lines, row, col, init, added[0]);
        assert last !in init;
        assert added[0] !in before;
        forall i, j | 0 <= i < j < |cells|
          ensures cells[i] != cells[j]
        {
          if j == |before| {
            assert cells[i] == before[i] && cells[j] == added[0];
          } else {
            assert cells[i] == before[i] && cells[j] == before[j];
          }
        }
      }
    }
  }

  /** The offset table lists the eight steps to a neighbour. */
  lemma OffsetsAreNeighbours(dr: int, dc: int)
    ensures (dr, dc) in Offsets <==> -1 <= dr <= 1 && -1 <= dc <= 1 && (dr, dc) != (0, 0)
  {
  }

  /** The adjacent cells are exactly the eight neighbours that lie on the
      grid, never the cell itself, each once. */
  lemma AdjacentCellsSpec(lines: Grid, row: nat, col: nat)
    ensures forall cell :: cell in AdjacentCells(lines, row, col) <==> IsAdjacent(cell, row, col) && InGrid(lines, cell)
    ensures var cells := AdjacentCells(lines, row, col);
      forall i, j :: 0 <= i < j < |cells| ==> cells[i] != cells[j]
  {
    forall cell
      ensures cell in AdjacentCells(lines, row, col) <==> IsAdjacent(cell, row, col) && InGrid(lines, cell)
    {
      CellsAtMembers(lines, row, col, Offsets, cell);
      OffsetsAreNeighbours(cell.row - row, cell.col - col);
      assert cell == Cell(row, col) <==> (cell.row - row, cell.col - col) == (0, 0);
    }
    CellsAtDistinct(lines, row, col, Offsets);
    assert AdjacentCells(lines, row, col) == CellsAt(lines, row, col, Offsets);
  }

  /** Anything but a digit or `.`. */
  predicate IsSymbol(c: char) {
    !IsDigit(c) && c != '.'
  }

  /** The digit at (row, col) touches a symbol. */
  predicate TouchesSymbol(lines: Grid, row: nat, col: nat)
    requires IsRectangular(lines)
  {
    var cells := AdjacentCells(lines, row, col);
    exists i :: 0 <= i < |cells| && IsSymbol(lines[cells[i].row][cells[i].col])
  }

  /** Where the run of digits that ends just before column `e` starts: the
      digits from there up to `e` are all digits, and the run cannot be
      extended to the left. */
  function RunStart(line: string, e: nat): (s: nat)
    requires e <= |line|
    ensures s <= e
    ensures forall c :: s <= c < e ==> IsDigit(line[c])
    ensures s == 0 || !IsDigit(line[s - 1])
  {
    if e > 0 && IsDigit(line[e - 1]) then RunStart(line, e - 1) else e
  }

  /** A maximal run of digits of a row: `lines[row][start..end]`. */
  datatype Run = Run(row: nat, start: nat, end: nat)

  /** A maximal, non-empty run of digits ends at column `e`: at the end of
      the line or at a non-digit. */
  predicate EndsRun(line: string, e: nat)
    requires e <= |line|
  {
    RunStart(line, e) < e && (e == |line| || !IsDigit(line[e]))
  }

  /** The run lies within its row and holds only digits. */
  predicate RunIn(lines: Grid, run: Run) {
    run.row < |lines| && run.start < run.end <= |lines[run.row]| &&
    AllDigits(lines[run.row][run.start..run.end])
  }

  predicate RunsIn(lines: Grid, runs: seq<Run>) {
    forall i :: 0 <= i < |runs| ==> RunIn(lines, runs[i])
  }

  /** The numbers of row `row` that end before column `k`, left to right. */
  function RowRuns(lines: Grid, row: nat, k: nat): (runs: seq<Run>)
    requires row < |lines| && k <= |lines[row]| + 1
    ensures RunsIn(lines, runs)
  {
    if k == 0 then []
    else
      var line := lines[row];
      RowRuns(lines, row, k - 1) + (if EndsRun(line, k - 1) then [Run(row, RunStart(line, k - 1), k - 1)] else [])
  }

  /** The numbers of the first `rows` rows, row by row. */
  function Runs(lines: Grid, rows: nat): (runs: seq<Run>)
    requires rows <= |lines|
    ensures RunsIn(lines, runs)
  {
    if rows == 0 then [] else Runs(lines, rows - 1) + RowRuns(lines, rows - 1, |lines[rows - 1]| + 1)
  }

  /** Every number of the schematic, in reading order. */
  function AllRuns(lines: Grid): seq<Run> {
    Runs(lines, |lines|)
  }

  function RunValue(lines: Grid, run: Run): nat
    requires RunIn(lines, run)
  {
    DecimalValue(lines[run.row][run.start..run.end])
  }

  /** Some digit of the cells from `s` to `e` of the row touches a symbol. */
  predicate TouchesSymbolBetween(lines: Grid, row: nat, s: nat, e: nat)
    requires IsRectangular(lines)
  {
    exists c :: s <= c < e && TouchesSymbol(lines, row, c)
  }

  predicate IsPartNumber(lines: Grid, run: Run)
    requires IsRectangular(lines)
  {
    TouchesSymbolBetween(lines, run.row, run.start, run.end)
  }

  /** The sum of the part numbers among `runs`. */
  function PartSum(lines: Grid, runs: seq<Run>): nat
    requires IsRectangular(lines) && RunsIn(lines, runs)
  {
    if |runs| == 0 then 0
    else
      var run := runs[|runs| - 1];
      PartSum(lines, runs[..|runs| - 1]) + (if IsPartNumber(lines, run) then RunValue(lines, run) else 0)
  }

  lemma {:induction false} PartSumAppend(lines: Grid, a: seq<Run>, b: seq<Run>)
    requires IsRectangular(lines) && RunsIn(lines, a) && RunsIn(lines, b)
    ensures RunsIn(lines, a + b)
    ensures PartSum(lines, a + b) == PartSum(lines, a) + PartSum(lines, b)
  {
    if |b| > 0 {
      PartSumAppend(lines, a, b[..|b| - 1]);
      assert (a + b)[..|a + b| - 1] == a + b[..|b| - 1];
    } else {
      assert a + b == a;
    }
  }

  /** A non-digit or the end of the row closes the run before it, which
      counts when it touches a symbol. */
  lemma RowRunsClose(lines: Grid, row: nat, col: nat)
    requires IsRectangular(lines) && row < |lines| && col <= |lines[row]|
    requires col == |lines[row]| || !IsDigit(lines[row][col])
    ensures var s := RunStart(lines[row], col);
      PartSum(lines, RowRuns(lines, row, col + 1)) ==
        PartSum(lines, RowRuns(lines, row, col)) +
        (if TouchesSymbolBetween(lines, row, s, col) then DecimalValue(lines[row][s..col]) else 0)
  {
    var line := lines[row];
    var s := RunStart(line, col);
    if s < col {
      var run := Run(row, s, col);
      PartSumAppend(lines, RowRuns(lines, row, col), [run]);
      assert [run][..0] == [];
    } else {
      assert RowRuns(lines, row, col + 1) == RowRuns(lines, row, col);
    }
  }

  /** A digit extends the current run: nothing closes, the run keeps its
      start, gains the digit's value, and touches a symbol when it did or
      the digit does. */
  lemma RowRunsExtend(lines: Grid, row: nat, col: nat)
    requires IsRectangular(lines) && row < |lines| && col < |lines[row]| && IsDigit(lines[row][col])
    ensures RowRuns(lines, row, col + 1) == RowRuns(lines, row, col)
    ensures var s := RunStart(lines[row], col);
      && RunStart(lines[row], col + 1) == s
      && DecimalValue(lines[row][s..col + 1]) == DecimalValue(lines[row][s..col]) * 10 + DigitValue(lines[row][col])
      && (TouchesSymbolBetween(lines, row, s, col + 1) <==>
            TouchesSymbolBetween(lines, row, s, col) || TouchesSymbol(lines, row, col))
  {
    var line := lines[row];
    var s := RunStart(line, col);
    assert line[s..col + 1] == line[s..col] + [line[col]];
    DecimalValueAppend(line[s..col], line[col]);
  }

  /** The state of `part_1` after the first `col` columns of a row: the
      total of the runs closed so far, the value of the open run and
      whether it touches a symbol. */
  predicate RowScan(lines: Grid, row: nat, col: nat, total: nat, partNumber: nat, isValid: bool)
    requires IsRectangular(lines) && row < |lines| && col <= |lines[row]|
  {
    var s := RunStart(lines[row], col);
    && total == PartSum(lines, RowRuns(lines, row, col))
    && partNumber == DecimalValue(lines[row][s..col])
    && (isValid <==> TouchesSymbolBetween(lines, row, s, col))
  }

  /** A digit extends the open run. */
  lemma ScanDigit(lines: Grid, row: nat, col: nat, total: nat, partNumber: nat, isValid: bool)
    requires IsRectangular(lines) && row < |lines| && col < |lines[row]| && IsDigit(lines[row][col])
    requires RowScan(lines, row, col, total, partNumber, isValid)
    ensures RowScan(lines, row, col + 1, total, partNumber * 10 + DigitValue(lines[row][col]),
                    isValid || TouchesSymbol(lines, row, col))
  {
    RowRunsExtend(lines, row, col);
  }

  /** A non-digit or the end of the row closes the open run: the total
      gains its value when it touches a symbol. */
  lemma ScanClose(lines: Grid, row: nat, col: nat, total: nat, partNumber: nat, isValid: bool)
    requires IsRectangular(lines) && row < |lines| && col <= |lines[row]|
    requires col == |lines[row]| || !IsDigit(lines[row][col])
    requires RowScan(lines, row, col, total, partNumber, isValid)
    ensures PartSum(lines, RowRuns(lines, row, col + 1)) == if isValid then total + partNumber else total
    ensures col < |lines[row]| ==>
              RowScan(lines, row, col + 1, if isValid then total + partNumber else total, 0, false)
  {
    RowRunsClose(lines, row, col);
    if col < |lines[row]| {
      assert RunStart(lines[row], col + 1) == col + 1;
      assert lines[row][col + 1..col + 1] == [];
    }
  }

  /** One column of `part_1`: a digit extends `part_number` and
      `is_valid`; anything else adds a valid number to the total and starts
      afresh. */
  method ScanColumn(lines: Grid, row: nat, col: nat, total: nat, partNumber: nat, isValid: bool)
    returns (total': nat, partNumber': nat, isValid': bool)
    requires IsRectangular(lines) && row < |lines| && col < |lines[row]|
    requires RowScan(lines, row, col, total, partNumber, isValid)
    ensures RowScan(lines, row, col + 1, total', partNumber', isValid')
  {
    var c := lines[row][col];
    if IsDigit(c) {
      ScanDigit(lines, row, col, total, partNumber, isValid);
      total', partNumber' := total, partNumber * 10 + DigitValue(c);
      var touches := TouchesSymbol(lines, row, col);
      isValid' := isValid || touches;
    } else {
      ScanClose(lines, row, col, total, partNumber, isValid);
      total' := if isValid then total + partNumber else total;
      partNumber', isValid' := 0, false;
    }
  }

  /** One row of `part_1`: `part_number` collects the digits of the current
      run and `is_valid` whether any of them touches a symbol; a non-digit or
      the end of the row closes the run, adding it when valid. */
  method RowPartSum(lines: Grid, row: nat) returns (total: nat)
    requires IsRectangular(lines) && row < |lines|
    ensures total == PartSum(lines, RowRuns(lines, row, |lines[row]| + 1))
  {
    var line := lines[row];
    total := 0;
    var partNumber: nat := 0;
    var isValid := false;
    assert line[0..0] == [];
    for col := 0 to |line|
      invariant RowScan(lines, row, col, total, partNumber, isValid)
    {
      total, partNumber, isValid := ScanColumn(lines, row, col, total, partNumber, isValid);
    }
    ScanClose(lines, row, |line|, total, partNumber, isValid);
    if isValid {
      total := total + partNumber;
    }
  }

  /** `part_1`: the sum of the part numbers, row by row. */
  method Part1(input: string) returns (result: nat)
    requires IsRectangular(Lines(input))
    ensures result == PartSum(Lines(input), AllRuns(Lines(input)))
  {
    var lines := Lines(input);
    result := 0;
    for row := 0 to |lines|
      invariant result == PartSum(lines, Runs(lines, row))
    {
      var rowTotal := RowPartSum(lines, row);
      PartSumAppend(lines, Runs(lines, row), RowRuns(lines, row, |lines[row]| + 1));
      result := result + rowTotal;
    }
  }

  /** A `*` of the schematic. */
  predicate IsGear(lines: Grid, cell: Cell) {
    cell.row < |lines| && cell.col < |lines[cell.row]| && lines[cell.row][cell.col] == GearSymbol
  }

  /** Reading order: by row, then by column. */
  predicate Before(a: Cell, b: Cell) {
    a.row < b.row || (a.row == b.row && a.col < b.col)
  }

  /** `get_gears`: the `*` cells, each once, in reading order. */
  method GetGears(lines: Grid) returns (gears: seq<Cell>)
    ensures forall cell :: cell in gears <==> IsGear(lines, cell)
    ensures forall i, j :: 0 <= i < j < |gears| ==> Before(gears[i], gears[j])
  {
    gears := [];
    for row := 0 to |lines|
      invariant forall cell :: cell in gears <==> IsGear(lines, cell) && cell.row < row
      invariant forall i, j :: 0 <= i < j < |gears| ==> Before(gears[i], gears[j])
      invariant forall i :: 0 <= i < |gears| ==> gears[i].row < row
    {
      for col := 0 to |lines[row]|
        invariant forall cell :: cell in gears <==>
                    IsGear(lines, cell) && (cell.row < row || (cell.row == row && cell.col < col))
        invariant forall i, j :: 0 <= i < j < |gears| ==> Before(gears[i], gears[j])
        invariant forall i :: 0 <= i < |gears| ==> Before(gears[i], Cell(row, col))
      {
        if lines[row][col] == GearSymbol {
          gears := gears + [Cell(row, col)];
        }
      }
    }
  }

  /** The neighbours of (row, col) that are not digits: the cells a number
      through (row, col) may share with a gear. */
  function NonDigitNeighbours(lines: Grid, row: nat, col: nat): set<Cell>
    requires IsRectangular(lines)
  {
    var cells := AdjacentCells(lines, row, col);
    set i | 0 <= i < |cells| && !IsDigit(lines[cells[i].row][cells[i].col]) :: cells[i]
  }

  /** The non-digit neighbours of the digits of the row from `s` to `e`. */
  function AroundRun(lines: Grid, row: nat, s: nat, e: nat): set<Cell>
    requires IsRectangular(lines)
    decreases e
  {
    if e <= s then {} else AroundRun(lines, row, s, e - 1) + NonDigitNeighbours(lines, row, e - 1)
  }

  /** A gear's list of part numbers, as `part_2` keeps them. */
  type GearParts = map<Cell, seq<nat>>

  /** The lists with `n` pushed onto the list of every gear among `cells`;
      since `cells` is a set, each gear gets `n` at most once. */
  function AddToGears(gearParts: GearParts, n: nat, cells: set<Cell>): (updated: GearParts)
    ensures updated.Keys == gearParts.Keys
  {
    map g | g in gearParts :: if g in cells then gearParts[g] + [n] else gearParts[g]
  }

  /** `add_part_number_to_adjacent_gears`: for each cell of the set, in
      whatever order the set yields them, push `n` onto that cell's list
      when the cell is a gear. */
  method AddPartNumberToAdjacentGears(gearParts: GearParts, n: nat, cells: set<Cell>)
    returns (updated: GearParts)
    ensures updated == AddToGears(gearParts, n, cells)
  {
    updated := gearParts;
    var remaining := cells;
    while remaining != {}
      invariant remaining <= cells
      invariant updated == AddToGears(gearParts, n, cells - remaining)
      decreases |remaining|
    {
      var cell :| cell in remaining;
      if cell in updated {
        updated := updated[cell := updated[cell] + [n]];
      }
      remaining := remaining - {cell};
    }
  }

  /** The values of the numbers among `runs` that have `gear` among their
      neighbours, in order: what `part_2` pushes onto the gear's list. */
  function PartsAround(lines: Grid, runs: seq<Run>, gear: Cell): (parts: seq<nat>)
    requires IsRectangular(lines) && RunsIn(lines, runs)
    ensures |parts| <= |runs|
  {
    if |runs| == 0 then []
    else
      var run := runs[|runs| - 1];
      PartsAround(lines, runs[..|runs| - 1], gear) +
      (if gear in AroundRun(lines, run.row, run.start, run.end) then [RunValue(lines, run)] else [])
  }

  lemma {:induction false} PartsAroundAppend(lines: Grid, a: seq<Run>, b: seq<Run>, gear: Cell)
    requires IsRectangular(lines) && RunsIn(lines, a) && RunsIn(lines, b)
    ensures RunsIn(lines, a + b)
    ensures PartsAround(lines, a + b, gear) == PartsAround(lines, a, gear) + PartsAround(lines, b, gear)
  {
    if |b| > 0 {
      PartsAroundAppend(lines, a, b[..|b| - 1], gear);
      assert (a + b)[..|a + b| - 1] == a + b[..|b| - 1];
    } else {
      assert a + b == a;
    }
  }

  /** `after` holds, for every gear of `before`, its list followed by the
      numbers of `runs` around it. */
  predicate HoldsPartsAround(lines: Grid, before: GearParts, after: GearParts, runs: seq<Run>)
    requires IsRectangular(lines) && RunsIn(lines, runs)
  {
    after.Keys == before.Keys &&
    forall g :: g in before ==> after[g] == before[g] + PartsAround(lines, runs, g)
  }

  /** One more number adds its value to the gears around it. */
  lemma PartsAroundSnoc(lines: Grid, runs: seq<Run>, run: Run, gear: Cell)
    requires IsRectangular(lines) && RunsIn(lines, runs) && RunIn(lines, run)
    ensures RunsIn(lines, runs + [run])
    ensures PartsAround(lines, runs + [run], gear) ==
              PartsAround(lines, runs, gear) +
              (if gear in AroundRun(lines, run.row, run.start, run.end) then [RunValue(lines, run)] else [])
  {
    assert (runs + [run])[..|runs|] == runs;
  }

  /** A non-digit or the end of the row closes the run before it: pushing
      its value onto the gears around it accounts for it. */
  lemma GearsCloseRun(lines: Grid, row: nat, col: nat, gearParts: GearParts, before: GearParts, n: nat, cells: set<Cell>)
    requires IsRectangular(lines) && row < |lines| && col <= |lines[row]|
    requires EndsRun(lines[row], col)
    requires HoldsPartsAround(lines, gearParts, before, RowRuns(lines, row, col))
    requires n == DecimalValue(lines[row][RunStart(lines[row], col)..col])
    requires cells == AroundRun(lines, row, RunStart(lines[row], col), col)
    ensures HoldsPartsAround(lines, gearParts, AddToGears(before, n, cells), RowRuns(lines, row, col + 1))
  {
    var runs := RowRuns(lines, row, col);
    var run := Run(row, RunStart(lines[row], col), col);
    assert RowRuns(lines, row, col + 1) == runs + [run];
    AccountForRun(lines, gearParts, before, runs, run);
  }

  /** Pushing the value of one more number onto the gears around it keeps
      the account. */
  lemma AccountForRun(lines: Grid, gearParts: GearParts, before: GearParts, runs: seq<Run>, run: Run)
    requires IsRectangular(lines) && RunsIn(lines, runs) && RunIn(lines, run)
    requires HoldsPartsAround(lines, gearParts, before, runs)
    ensures RunsIn(lines, runs + [run])
    ensures HoldsPartsAround(lines, gearParts,
              AddToGears(before, RunValue(lines, run), AroundRun(lines, run.row, run.start, run.end)), runs + [run])
  {
    forall g | g in gearParts
      ensures PartsAround(lines, runs + [run], g) ==
                PartsAround(lines, runs, g) +
                (if g in AroundRun(lines, run.row, run.start, run.end) then [RunValue(lines, run)] else [])
    {
      PartsAroundSnoc(lines, runs, run, g);
    }
  }

  /** Where no run closes, the set is empty and nothing changes. */
  lemma GearsCloseNothing(lines: Grid, row: nat, col: nat, gearParts: GearParts, before: GearParts, n: nat)
    requires IsRectangular(lines) && row < |lines| && col <= |lines[row]|
    requires (col == |lines[row]| || !IsDigit(lines[row][col])) && !EndsRun(lines[row], col)
    requires HoldsPartsAround(lines, gearParts, before, RowRuns(lines, row, col))
    ensures RunStart(lines[row], col) == col
    ensures HoldsPartsAround(lines, gearParts, AddToGears(before, n, {}), RowRuns(lines, row, col + 1))
  {
    assert RowRuns(lines, row, col + 1) == RowRuns(lines, row, col);
    assert AddToGears(before, n, {}) == before;
  }

  /** Closing the run before a non-digit or the end of the row. */
  lemma GearsClose(lines: Grid, row: nat, col: nat, gearParts: GearParts, before: GearParts, n: nat, cells: set<Cell>)
    requires IsRectangular(lines) && row < |lines| && col <= |lines[row]|
    requires col == |lines[row]| || !IsDigit(lines[row][col])
    requires HoldsPartsAround(lines, gearParts, before, RowRuns(lines, row, col))
    requires n == DecimalValue(lines[row][RunStart(lines[row], col)..col])
    requires cells == AroundRun(lines, row, RunStart(lines[row], col), col)
    ensures HoldsPartsAround(lines, gearParts, AddToGears(before, n, cells), RowRuns(lines, row, col + 1))
  {
    if EndsRun(lines[row], col) {
      GearsCloseRun(lines, row, col, gearParts, before, n, cells);
    } else {
      GearsCloseNothing(lines, row, col, gearParts, before, n);
    }
  }

  /** The state of `part_2` after the first `col` columns of a row: the
      lists hold the runs closed so far, and the open run has its value and
      its non-digit neighbours at hand. */
  predicate GearScan(lines: Grid, row: nat, col: nat, gearParts: GearParts, updated: GearParts,
                     partNumber: nat, partAdjacentCells: set<Cell>)
    requires IsRectangular(lines) && row < |lines| && col <= |lines[row]|
  {
    var s := RunStart(lines[row], col);
    && partNumber == DecimalValue(lines[row][s..col])
    && partAdjacentCells == AroundRun(lines, row, s, col)
    && HoldsPartsAround(lines, gearParts, updated, RowRuns(lines, row, col))
  }

  /** One column of `part_2`: a digit extends `part_number` and
      `part_adjacent_cells`; anything else pushes the number onto the gears
      among those cells and starts afresh. */
  method GearColumn(lines: Grid, row: nat, col: nat, gearParts: GearParts, updated: GearParts,
                    partNumber: nat, partAdjacentCells: set<Cell>)
    returns (updated': GearParts, partNumber': nat, partAdjacentCells': set<Cell>)
    requires IsRectangular(lines) && row < |lines| && col < |lines[row]|
    requires GearScan(lines, row, col, gearParts, updated, partNumber, partAdjacentCells)
    ensures GearScan(lines, row, col + 1, gearParts, updated', partNumber', partAdjacentCells')
  {
    var line := lines[row];
    if IsDigit(line[col]) {
      RowRunsExtend(lines, row, col);
      updated' := updated;
      partNumber' := partNumber * 10 + DigitValue(line[col]);
      partAdjacentCells' := partAdjacentCells + NonDigitNeighbours(lines, row, col);
    } else {
      GearsClose(lines, row, col, gearParts, updated, partNumber, partAdjacentCells);
      updated' := AddPartNumberToAdjacentGears(updated, partNumber, partAdjacentCells);
      partNumber', partAdjacentCells' := 0, {};
      assert RunStart(line, col + 1) == col + 1;
      assert line[col + 1..col + 1] == [];
    }
  }

  /** One row of `part_2`: `part_number` collects the digits of the current
      run and `part_adjacent_cells` their non-digit neighbours; a non-digit
      or the end of the row pushes the number onto the gears among them. */
  method RowGearParts(lines: Grid, row: nat, gearParts: GearParts) returns (updated: GearParts)
    requires IsRectangular(lines) && row < |lines|
    ensures HoldsPartsAround(lines, gearParts, updated, RowRuns(lines, row, |lines[row]| + 1))
  {
    var line := lines[row];
    updated := gearParts;
    var partNumber: nat := 0;
    var partAdjacentCells: set<Cell> := {};
    assert line[0..0] == [];
    for col := 0 to |line|
      invariant GearScan(lines, row, col, gearParts, updated, partNumber, partAdjacentCells)
    {
      updated, partNumber, partAdjacentCells :=
        GearColumn(lines, row, col, gearParts, updated, partNumber, partAdjacentCells);
    }
    GearsClose(lines, row, |line|, gearParts, updated, partNumber, partAdjacentCells);
    updated := AddPartNumberToAdjacentGears(updated, partNumber, partAdjacentCells);
  }

  /** The gear ratio of a gear with these numbers: their product when there
      are exactly two, else nothing. */
  function Ratio(parts: seq<nat>): nat {
    if |parts| == 2 then parts[0] * parts[1] else 0
  }

  /** The ratio of each gear, from the lists `part_2` keeps. */
  function RatioOf(gearParts: GearParts): Cell -> int {
    g => if g in gearParts then Ratio(gearParts[g]) else 0
  }

  /** The final `filter`/`map`/`sum` over the map, whose iteration order is
      unspecified: the keys are taken in an arbitrary order. */
  method SumRatios(gearParts: GearParts) returns (total: int)
    ensures total == SetSum(gearParts.Keys, RatioOf(gearParts))
  {
    total := 0;
    var remaining := gearParts.Keys;
    while remaining != {}
      invariant remaining <= gearParts.Keys
      invariant total + SetSum(remaining, RatioOf(gearParts)) == SetSum(gearParts.Keys, RatioOf(gearParts))
      decreases |remaining|
    {
      var g :| g in remaining;
      SetSumRemove(remaining, RatioOf(gearParts), g);
      var parts := gearParts[g];
      if |parts| == 2 {
        total := total + parts[0] * parts[1];
      }
      remaining := remaining - {g};
    }
  }

  /** The `*` cells of the schematic. */
  function GearCells(lines: Grid): (cells: set<Cell>)
    ensures forall cell :: cell in cells <==> IsGear(lines, cell)
  {
    set r, c | 0 <= r < |lines| && 0 <= c < |lines[r]| && lines[r][c] == GearSymbol :: Cell(r, c)
  }

  /** The ratio of each gear, from the numbers around it. */
  function RatiosAround(lines: Grid): Cell -> int
    requires IsRectangular(lines)
  {
    g => Ratio(PartsAround(lines, AllRuns(lines), g))
  }

  /** Accounts chain: the numbers of `a` and then of `b` are those of
      `a + b`. */
  lemma HoldsPartsAroundChain(lines: Grid, first: GearParts, middle: GearParts, last: GearParts, a: seq<Run>, b: seq<Run>)
    requires IsRectangular(lines) && RunsIn(lines, a) && RunsIn(lines, b)
    requires HoldsPartsAround(lines, first, middle, a) && HoldsPartsAround(lines, middle, last, b)
    ensures RunsIn(lines, a + b) && HoldsPartsAround(lines, first, last, a + b)
  {
    forall g | g in first
      ensures PartsAround(lines, a + b, g) == PartsAround(lines, a, g) + PartsAround(lines, b, g)
    {
      PartsAroundAppend(lines, a, b, g);
    }
  }

  /** The lists `part_2` builds: every gear starts with an empty list, and
      each number, when it closes, is pushed onto the lists of the gears
      around it. In the end every gear holds the numbers around it, in
      reading order. */
  method GearLists(lines: Grid) returns (gearParts: GearParts)
    requires IsRectangular(lines)
    ensures gearParts.Keys == GearCells(lines)
    ensures forall g :: g in gearParts ==> gearParts[g] == PartsAround(lines, AllRuns(lines), g)
  {
    var gears := GetGears(lines);
    var initial := map g | g in gears :: [];
    assert initial.Keys == GearCells(lines);
    gearParts := AccountRows(lines, initial);
    FromEmptyLists(lines, initial, gearParts, AllRuns(lines));
  }

  /** The row loop of `part_2`: every number of the schematic, row by row,
      is pushed onto the lists of the gears around it. */
  method AccountRows(lines: Grid, initial: GearParts) returns (gearParts: GearParts)
    requires IsRectangular(lines)
    ensures HoldsPartsAround(lines, initial, gearParts, AllRuns(lines))
  {
    gearParts := initial;
    for row := 0 to |lines|
      invariant HoldsPartsAround(lines, initial, gearParts, Runs(lines, row))
    {
      ghost var previous := gearParts;
      gearParts := RowGearParts(lines, row, gearParts);
      HoldsPartsAroundChain(lines, initial, previous, gearParts, Runs(lines, row), RowRuns(lines, row, |lines[row]| + 1));
    }
  }

  /** Lists that started empty hold just the numbers around their gears. */
  lemma FromEmptyLists(lines: Grid, initial: GearParts, final: GearParts, runs: seq<Run>)
    requires IsRectangular(lines) && RunsIn(lines, runs)
    requires forall g :: g in initial ==> initial[g] == []
    requires HoldsPartsAround(lines, initial, final, runs)
    ensures forall g :: g in final ==> final[g] == PartsAround(lines, runs, g)
  {
    forall g | g in final
      ensures final[g] == PartsAround(lines, runs, g)
    {
      assert final[g] == [] + PartsAround(lines, runs, g);
    }
  }

  /** `part_2`: the sum of the ratios of the gears with exactly two numbers
      around them. */
  method Part2(input: string) returns (result: int)
    requires IsRectangular(Lines(input))
    ensures result == SetSum(GearCells(Lines(input)), RatiosAround(Lines(input)))
  {
    var lines := Lines(input);
    var gearParts := GearLists(lines);
    result := SumRatios(gearParts);
    SetSumCongruent(gearParts.Keys, RatioOf(gearParts), RatiosAround(lines));
  }
}
