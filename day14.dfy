/**
 * Parabolic reflector dish: round rocks `O` roll across a platform of cube
 * rocks `#` and empty cells `.`. The platform is tilted north, rotated a
 * quarter turn clockwise, and the four tilt-and-rotate pairs make one spin
 * cycle; `Cycle` runs a billion spin cycles by spotting a repeated platform.
 *
 * The Rust functions take the platform by value, change their own copy cell
 * by cell and hand it back, so each of them is a method over a local
 * sequence that is updated one cell at a time.
 */
module Day14 {
  import opened Wrappers
  import opened Grids
  import Text

  type Platform = Grid

  const Empty: char := '.'
  const RoundRock: char := 'O'

  // ---------------------------------------------------------------------------
  // Tilting one column toward row 0
  // ---------------------------------------------------------------------------

  /** Column `c` of the platform, read from row 0 down. */
  function Column(p: Platform, c: nat): (col: seq<char>)
    requires IsRectangular(p) && c < Width(p)
    ensures |col| == |p|
  {
    seq(|p|, r requires 0 <= r < |p| => p[r][c])
  }

  /** The number of empty cells at the end of `t`: how far a rock placed just
      below `t` rolls up. */
  function EmptyRunAtEnd(t: seq<char>): (k: nat)
    ensures k <= |t|
    ensures forall i :: |t| - k <= i < |t| ==> t[i] == Empty
    ensures k < |t| ==> t[|t| - 1 - k] != Empty
  {
    if |t| > 0 && t[|t| - 1] == Empty then 1 + EmptyRunAtEnd(t[..|t| - 1]) else 0
  }

  /** The cell `x` placed just below the already tilted segment `t`: a round
      rock rolls up over the empty cells at the end of `t`, and any other cell
      stays where it is. */
  function RollUp(t: seq<char>, x: char): seq<char> {
    if x != RoundRock then t + [x]
    else
      var m := |t| - EmptyRunAtEnd(t);
      t[..m] + [RoundRock] + t[m..]
  }

  /** A column tilted toward index 0: the cells are settled from the top down,
      each rock rolling up as far as the empty cells above it allow. */
  function TiltLine(s: seq<char>): (t: seq<char>)
    ensures |t| == |s|
  {
    if |s| == 0 then [] else RollUp(TiltLine(s[..|s| - 1]), s[|s| - 1])
  }

  /** No round rock has an empty cell directly above it. */
  predicate Settled(t: seq<char>) {
    forall i :: 1 <= i < |t| && t[i] == RoundRock ==> t[i - 1] != Empty
  }

  lemma {:induction false} EmptyRunIsUnique(t: seq<char>, k: nat)
    requires k <= |t|
    requires forall i :: |t| - k <= i < |t| ==> t[i] == Empty
    requires k < |t| ==> t[|t| - 1 - k] != Empty
    ensures EmptyRunAtEnd(t) == k
  {
    if k > 0 {
      EmptyRunIsUnique(t[..|t| - 1], k - 1);
    }
  }

  lemma RollUpAt(t: seq<char>, x: char, j: nat)
    requires j <= |t|
    ensures |RollUp(t, x)| == |t| + 1
    ensures x != RoundRock ==> RollUp(t, x)[j] == if j < |t| then t[j] else x
    ensures x == RoundRock ==>
      var m := |t| - EmptyRunAtEnd(t);
      RollUp(t, x)[j] == if j < m then t[j] else if j == m then RoundRock else Empty
  {
  }

  /** Tilting a column keeps its multiset of cells. */
  lemma {:induction false} TiltLineKeepsCells(s: seq<char>)
    ensures multiset(TiltLine(s)) == multiset(s)
  {
    if |s| > 0 {
      var n := |s| - 1;
      var init, x := s[..n], s[n];
      assert s == init + [x];
      TiltLineKeepsCells(init);
      var t := TiltLine(init);
      if x == RoundRock {
        var m := |t| - EmptyRunAtEnd(t);
        assert t == t[..m] + t[m..];
        assert RollUp(t, x) == t[..m] + [x] + t[m..];
        assert multiset(RollUp(t, x)) == multiset(t[..m]) + multiset{x} + multiset(t[m..]);
      } else {
        assert RollUp(t, x) == t + [x];
      }
    }
  }

  /** Tilting keeps every cell that is neither a round rock nor empty where
      it is, and puts no such cell anywhere else. */
  lemma {:induction false} TiltLineKeepsFixed(s: seq<char>)
    ensures forall i :: 0 <= i < |s| && s[i] != RoundRock && s[i] != Empty ==> TiltLine(s)[i] == s[i]
    ensures forall i :: 0 <= i < |s| && TiltLine(s)[i] != RoundRock && TiltLine(s)[i] != Empty ==>
      TiltLine(s)[i] == s[i]
  {
    if |s| > 0 {
      var n := |s| - 1;
      var t, x := TiltLine(s[..n]), s[n];
      TiltLineKeepsFixed(s[..n]);
      var u := RollUp(t, x);
      assert TiltLine(s) == u;
      forall j | 0 <= j <= n
        ensures s[j] != RoundRock && s[j] != Empty ==> u[j] == s[j]
        ensures u[j] != RoundRock && u[j] != Empty ==> u[j] == s[j]
      {
        RollUpAt(t, x, j);
      }
    }
  }

  /** After tilting, no round rock has an empty cell above it. */
  lemma {:induction false} TiltLineSettles(s: seq<char>)
    ensures Settled(TiltLine(s))
  {
    if |s| > 0 {
      var n := |s| - 1;
      var t := TiltLine(s[..n]);
      TiltLineSettles(s[..n]);
      var x := s[n];
      var u := RollUp(t, x);
      forall i | 1 <= i < |u| && u[i] == RoundRock
        ensures u[i - 1] != Empty
      {
        RollUpAt(t, x, i);
        RollUpAt(t, x, i - 1);
      }
    }
  }

  /** A settled column is left as it is. */
  lemma {:induction false} SettledTiltIsIdentity(s: seq<char>)
    requires Settled(s)
    ensures TiltLine(s) == s
  {
    if |s| > 0 {
      var n := |s| - 1;
      assert Settled(s[..n]);
      SettledTiltIsIdentity(s[..n]);
      assert s == s[..n] + [s[n]];
      if s[n] == RoundRock {
        EmptyRunIsUnique(s[..n], 0);
      }
    }
  }

  // ---------------------------------------------------------------------------
  // Tilting the whole platform north
  // ---------------------------------------------------------------------------

  /** The platform with every column tilted toward row 0. */
  function TiltedNorth(p: Platform): (q: Platform)
    requires IsRectangular(p)
    ensures |q| == |p| && IsRectangular(q) && Width(q) == Width(p)
    ensures IsSquare(p) ==> IsSquare(q)
  {
    seq(|p|, r requires 0 <= r < |p| =>
      seq(Width(p), c requires 0 <= c < Width(p) => TiltLine(Column(p, c))[r]))
  }

  lemma ColumnOfTilted(p: Platform, c: nat)
    requires IsRectangular(p) && c < Width(p)
    ensures Column(TiltedNorth(p), c) == TiltLine(Column(p, c))
  {
  }

  /** Tilting north keeps the dimensions, never moves or changes a cell that
      is not a round rock or empty, and keeps the cells of every column. */
  lemma TiltedNorthConserves(p: Platform)
    requires IsRectangular(p)
    ensures |TiltedNorth(p)| == |p| && Width(TiltedNorth(p)) == Width(p)
    ensures forall r, c :: 0 <= r < |p| && 0 <= c < Width(p) && p[r][c] != RoundRock && p[r][c] != Empty ==>
      TiltedNorth(p)[r][c] == p[r][c]
    ensures forall r, c :: 0 <= r < |p| && 0 <= c < Width(p) ==>
      (TiltedNorth(p)[r][c] != RoundRock && TiltedNorth(p)[r][c] != Empty ==> TiltedNorth(p)[r][c] == p[r][c])
    ensures forall c :: 0 <= c < Width(p) ==>
      multiset(Column(TiltedNorth(p), c)) == multiset(Column(p, c))
  {
    forall c | 0 <= c < Width(p)
      ensures multiset(Column(TiltedNorth(p), c)) == multiset(Column(p, c))
      ensures forall r :: 0 <= r < |p| && p[r][c] != RoundRock && p[r][c] != Empty ==>
        TiltedNorth(p)[r][c] == p[r][c]
      ensures forall r :: 0 <= r < |p| && TiltedNorth(p)[r][c] != RoundRock && TiltedNorth(p)[r][c] != Empty ==>
        TiltedNorth(p)[r][c] == p[r][c]
    {
      TiltLineKeepsCells(Column(p, c));
      TiltLineKeepsFixed(Column(p, c));
      ColumnOfTilted(p, c);
    }
  }

  /** After tilting north, no round rock below row 0 has an empty cell
      directly above it. */
  lemma TiltedNorthSettles(p: Platform)
    requires IsRectangular(p)
    ensures forall c :: 0 <= c < Width(p) ==> Settled(Column(TiltedNorth(p), c))
  {
    forall c | 0 <= c < Width(p)
      ensures Settled(Column(TiltedNorth(p), c))
    {
      TiltLineSettles(Column(p, c));
      ColumnOfTilted(p, c);
    }
  }

  /** Tilting an already tilted platform changes nothing. */
  lemma TiltNorthIsIdempotent(p: Platform)
    requires IsRectangular(p)
    ensures TiltedNorth(TiltedNorth(p)) == TiltedNorth(p)
  {
    var q := TiltedNorth(p);
    forall r | 0 <= r < |q|
      ensures TiltedNorth(q)[r] == q[r]
    {
      forall c | 0 <= c < Width(q)
        ensures TiltedNorth(q)[r][c] == q[r][c]
      {
        ColumnOfTilted(p, c);
        TiltLineSettles(Column(p, c));
        SettledTiltIsIdentity(Column(q, c));
      }
    }
  }

  /** A platform without round rocks is not changed by tilting. */
  lemma NoRoundRocksTiltIsIdentity(p: Platform)
    requires IsRectangular(p)
    requires forall r, c :: 0 <= r < |p| && 0 <= c < Width(p) ==> p[r][c] != RoundRock
    ensures TiltedNorth(p) == p
  {
    forall r | 0 <= r < |p|
      ensures TiltedNorth(p)[r] == p[r]
    {
      forall c | 0 <= c < Width(p)
        ensures TiltedNorth(p)[r][c] == p[r][c]
      {
        assert Settled(Column(p, c));
        SettledTiltIsIdentity(Column(p, c));
      }
    }
  }

  // ---------------------------------------------------------------------------
  // The north support beam load
  // ---------------------------------------------------------------------------

  /** Weight of the round rocks of one row when each weighs `w`. */
  function RowLoad(s: seq<char>, w: nat): nat {
    if |s| == 0 then 0 else RowLoad(s[..|s| - 1], w) + (if s[|s| - 1] == RoundRock then w else 0)
  }

  /** Load of rows `0..k`: each round rock in row `r` weighs `|p| - r`. */
  function RowsLoad(p: Platform, k: nat): nat
    requires k <= |p|
  {
    if k == 0 then 0 else RowsLoad(p, k - 1) + RowLoad(p[k - 1], |p| - (k - 1))
  }

  /** A platform without round rocks has no load. */
  predicate NoRoundRocks(p: Platform) {
    forall r, c :: 0 <= r < |p| && 0 <= c < |p[r]| ==> p[r][c] != RoundRock
  }

  /** Total load on the north support beams: none without round rocks. */
  function NorthLoad(p: Platform): (load: nat)
    ensures NoRoundRocks(p) ==> load == 0
  {
    if NoRoundRocks(p) then
      RowsLoadNoRocks(p, |p|);
      RowsLoad(p, |p|)
    else
      RowsLoad(p, |p|)
  }

  lemma {:induction false} RowLoadNoRocks(s: seq<char>, w: nat)
    requires forall c :: 0 <= c < |s| ==> s[c] != RoundRock
    ensures RowLoad(s, w) == 0
  {
    if |s| > 0 {
      RowLoadNoRocks(s[..|s| - 1], w);
    }
  }

  lemma {:induction false} RowsLoadNoRocks(p: Platform, k: nat)
    requires k <= |p| && NoRoundRocks(p)
    ensures RowsLoad(p, k) == 0
  {
    if k > 0 {
      RowsLoadNoRocks(p, k - 1);
      RowLoadNoRocks(p[k - 1], |p| - (k - 1));
    }
  }

  lemma {:induction false} RowLoadUpdate(s: seq<char>, i: nat, x: char, w: nat)
    requires i < |s|
    ensures RowLoad(s[i := x], w) + (if s[i] == RoundRock then w else 0)
         == RowLoad(s, w) + (if x == RoundRock then w else 0)
  {
    var n := |s| - 1;
    if i < n {
      assert s[i := x][..n] == s[..n][i := x];
      RowLoadUpdate(s[..n], i, x, w);
    } else {
      assert s[i := x][..n] == s[..n];
    }
  }

  lemma {:induction false} RowsLoadUpdate(p: Platform, i: nat, row: seq<char>, k: nat)
    requires i < |p| && k <= |p|
    ensures RowsLoad(p[i := row], k) + (if i < k then RowLoad(p[i], |p| - i) else 0)
         == RowsLoad(p, k) + (if i < k then RowLoad(row, |p| - i) else 0)
  {
    if k > 0 {
      RowsLoadUpdate(p, i, row, k - 1);
    }
  }

  /** Changing one cell changes the load by the weight of its row, taken off
      if the old cell was a round rock and added if the new one is. */
  lemma CellUpdateLoad(p: Platform, r: nat, c: nat, y: char)
    requires r < |p| && c < |p[r]|
    ensures NorthLoad(p[r := p[r][c := y]]) + (if p[r][c] == RoundRock then |p| - r else 0)
         == NorthLoad(p) + (if y == RoundRock then |p| - r else 0)
  {
    RowsLoadUpdate(p, r, p[r][c := y], |p|);
    RowLoadUpdate(p[r], c, y, |p| - r);
  }

  /** `calculate_north_support_beam_load`: sums the weight `|p| - row` of
      every round rock. */
  method CalculateNorthSupportBeamLoad(p: Platform) returns (load: nat)
    requires IsRectangular(p)
    ensures load == NorthLoad(p)
  {
    load := 0;
    var row := 0;
    while row < |p|
      invariant 0 <= row <= |p|
      invariant load == RowsLoad(p, row)
    {
      var col := 0;
      while col < Width(p)
        invariant 0 <= col <= Width(p)
        invariant load == RowsLoad(p, row) + RowLoad(p[row][..col], |p| - row)
      {
        assert p[row][..col + 1][..col] == p[row][..col];
        if p[row][col] == RoundRock {
          load := load + (|p| - row);
        }
        col := col + 1;
      }
      assert p[row][..col] == p[row];
      row := row + 1;
    }
  }

  // ---------------------------------------------------------------------------
  // tilt_north as it runs: rows from the top, each rock rolled up in place
  // ---------------------------------------------------------------------------

  /** Column `c` once the rows `0..k` have been settled and the rest not yet. */
  function Partial(p: Platform, c: nat, k: nat): (s: seq<char>)
    requires IsRectangular(p) && c < Width(p) && k <= |p|
    ensures |s| == |p|
  {
    TiltLine(Column(p, c)[..k]) + Column(p, c)[k..]
  }

  lemma PartialFirstRow(p: Platform, c: nat)
    requires IsRectangular(p) && c < Width(p) && 1 <= |p|
    ensures Partial(p, c, 1) == Column(p, c)
  {
    var col := Column(p, c);
    var head := col[..1];
    assert head[..0] == [];
    assert EmptyRunAtEnd([]) == 0;
    assert RollUp([], col[0]) == [col[0]];
    assert TiltLine(head) == RollUp(TiltLine(head[..0]), head[0]);
    assert col == head + col[1..];
  }

  lemma PartialAt(p: Platform, c: nat, k: nat, j: nat)
    requires IsRectangular(p) && c < Width(p) && k <= |p| && j < |p|
    ensures Partial(p, c, k)[j] == if j < k then TiltLine(Column(p, c)[..k])[j] else p[j][c]
  {
  }

  lemma PartialStep(p: Platform, c: nat, k: nat)
    requires IsRectangular(p) && c < Width(p) && k < |p|
    ensures Partial(p, c, k + 1) == RollUp(TiltLine(Column(p, c)[..k]), p[k][c]) + Column(p, c)[k + 1..]
  {
    var col := Column(p, c);
    assert col[..k + 1][..k] == col[..k];
  }

  /** The cells of column `c` in rows `0..k`. */
  function ColumnAbove(q: Platform, c: nat, k: nat): (s: seq<char>)
    requires k <= |q| && forall r :: 0 <= r < k ==> c < |q[r]|
    ensures |s| == k
  {
    seq(k, j requires 0 <= j < k => q[j][c])
  }

  /** The body of the inner loop of `tilt_north` for a round rock: count the
      empty cells directly above it and, if there are any, move the rock to
      the topmost of them. The column above the rock changes as `RollUp`
      says, nothing else changes, and the load does not go down. */
  method RollRockUp(q: Platform, row: nat, col: nat) returns (q': Platform)
    requires IsRectangular(q) && row < |q| && col < Width(q) && q[row][col] == RoundRock
    ensures |q'| == |q| && IsRectangular(q') && Width(q') == Width(q)
    ensures forall r, c :: 0 <= r < |q| && 0 <= c < Width(q) && c != col ==> q'[r][c] == q[r][c]
    ensures forall r :: row < r < |q| ==> q'[r][col] == q[r][col]
    ensures forall r :: 0 <= r <= row ==> q'[r][col] == RollUp(ColumnAbove(q, col, row), RoundRock)[r]
    ensures NorthLoad(q') >= NorthLoad(q)
  {
    ghost var t := ColumnAbove(q, col, row);
    var emptySpacesAbove := 0;
    while emptySpacesAbove < row && q[row - 1 - emptySpacesAbove][col] == Empty
      invariant 0 <= emptySpacesAbove <= row
      invariant forall j :: row - emptySpacesAbove <= j < row ==> q[j][col] == Empty
    {
      emptySpacesAbove := emptySpacesAbove + 1;
    }
    EmptyRunIsUnique(t, emptySpacesAbove);
    q' := q;
    if emptySpacesAbove != 0 {
      CellUpdateLoad(q', row - emptySpacesAbove, col, RoundRock);
      q' := q'[row - emptySpacesAbove := q'[row - emptySpacesAbove][col := RoundRock]];
      CellUpdateLoad(q', row, col, Empty);
      q' := q'[row := q'[row][col := Empty]];
    }
    forall j | 0 <= j <= row
      ensures q'[j][col] == RollUp(t, RoundRock)[j]
    {
      RollUpAt(t, RoundRock, j);
    }
  }

  /** One step of the inner loop of `tilt_north`: the cell in row `row`,
      column `col` is settled against the rows above it, which are already
      tilted. Column `col` goes from `row` settled rows to `row + 1`, the
      other columns stay as they are, and the load does not go down. */
  method SettleCell(p: Platform, q: Platform, row: nat, col: nat) returns (q': Platform)
    requires IsRectangular(p) && IsRectangular(q) && |q| == |p| && Width(q) == Width(p)
    requires row < |p| && col < Width(p)
    requires forall r :: 0 <= r < |p| ==> q[r][col] == Partial(p, col, row)[r]
    ensures |q'| == |q| && IsRectangular(q') && Width(q') == Width(q)
    ensures forall r, c :: 0 <= r < |q| && 0 <= c < Width(q) && c != col ==> q'[r][c] == q[r][c]
    ensures forall r :: 0 <= r < |p| ==> q'[r][col] == Partial(p, col, row + 1)[r]
    ensures NorthLoad(q') >= NorthLoad(q)
  {
    var n := |p|;
    ghost var t := TiltLine(Column(p, col)[..row]);
    ghost var x := p[row][col];
    PartialStep(p, col, row);
    forall j | 0 <= j < n
      ensures q[j][col] == if j < row then t[j] else p[j][col]
      ensures Partial(p, col, row + 1)[j] == if j <= row then RollUp(t, x)[j] else p[j][col]
    {
      PartialAt(p, col, row, j);
      PartialAt(p, col, row + 1, j);
    }
    if q[row][col] == RoundRock {
      assert ColumnAbove(q, col, row) == t;
      q' := RollRockUp(q, row, col);
    } else {
      q' := q;
      forall j | 0 <= j <= row
        ensures q[j][col] == RollUp(t, x)[j]
      {
        RollUpAt(t, x, j);
      }
    }
  }

  /** The inner loop of `tilt_north`: every cell of row `row`, from left to
      right, is settled against the already tilted rows above it. */
  method SettleRow(p: Platform, q: Platform, row: nat) returns (q': Platform)
    requires IsRectangular(p) && IsRectangular(q) && |q| == |p| && Width(q) == Width(p)
    requires row < |p|
    requires forall r, c :: 0 <= r < |p| && 0 <= c < Width(p) ==> q[r][c] == Partial(p, c, row)[r]
    ensures IsRectangular(q') && |q'| == |p| && Width(q') == Width(p)
    ensures forall r, c :: 0 <= r < |p| && 0 <= c < Width(p) ==> q'[r][c] == Partial(p, c, row + 1)[r]
    ensures NorthLoad(q') >= NorthLoad(q)
  {
    var n, w := |p|, Width(p);
    q' := q;
    var col := 0;
    while col < w
      invariant 0 <= col <= w
      invariant IsRectangular(q') && |q'| == n && Width(q') == w
      invariant forall r, c :: 0 <= r < n && 0 <= c < col ==> q'[r][c] == Partial(p, c, row + 1)[r]
      invariant forall r, c :: 0 <= r < n && col <= c < w ==> q'[r][c] == Partial(p, c, row)[r]
      invariant NorthLoad(q') >= NorthLoad(q)
    {
      q' := SettleCell(p, q', row, col);
      col := col + 1;
    }
  }

  /** `tilt_north`: every round rock below row 0, row by row from the top,
      rolls up over the empty cells directly above it. The result is the
      platform with each column tilted, and its load is at least as high. */
  method TiltNorth(p: Platform) returns (q: Platform)
    requires IsRectangular(p)
    ensures q == TiltedNorth(p)
    ensures NorthLoad(q) >= NorthLoad(p)
  {
    if |p| == 0 {
      return p;
    }
    q := SettleRows(p);
    AllPartialIsTilted(p, q);
  }

  /** Row 0 needs no settling: the platform is its own first partial tilt. */
  lemma FirstRowSettled(p: Platform)
    requires IsRectangular(p) && |p| > 0
    ensures forall r, c :: 0 <= r < |p| && 0 <= c < Width(p) ==> p[r][c] == Partial(p, c, 1)[r]
  {
    forall r, c | 0 <= r < |p| && 0 <= c < Width(p)
      ensures p[r][c] == Partial(p, c, 1)[r]
    {
      PartialFirstRow(p, c);
    }
  }

  /** The loop of `TiltNorth`: rows `1..` settled one after the other. */
  method SettleRows(p: Platform) returns (q: Platform)
    requires IsRectangular(p) && |p| > 0
    ensures IsRectangular(q) && |q| == |p| && Width(q) == Width(p)
    ensures forall r, c :: 0 <= r < |p| && 0 <= c < Width(p) ==> q[r][c] == Partial(p, c, |p|)[r]
    ensures NorthLoad(q) >= NorthLoad(p)
  {
    q := p;
    var n, w := |p|, Width(p);
    FirstRowSettled(p);
    var row := 1;
    while row < n
      invariant 1 <= row <= n
      invariant IsRectangular(q) && |q| == n && Width(q) == w
      invariant forall r, c :: 0 <= r < n && 0 <= c < w ==> q[r][c] == Partial(p, c, row)[r]
      invariant NorthLoad(q) >= NorthLoad(p)
    {
      q := SettleRow(p, q, row);
      row := row + 1;
    }
  }

  /** Once every row is settled the platform is the tilted one. */
  lemma AllPartialIsTilted(p: Platform, q: Platform)
    requires IsRectangular(p) && IsRectangular(q) && |q| == |p| && Width(q) == Width(p)
    requires forall r, c :: 0 <= r < |p| && 0 <= c < Width(p) ==> q[r][c] == Partial(p, c, |p|)[r]
    ensures q == TiltedNorth(p)
  {
    var n, w := |p|, Width(p);
    forall r | 0 <= r < n
      ensures q[r] == TiltedNorth(p)[r]
    {
      forall c | 0 <= c < w
        ensures q[r][c] == TiltedNorth(p)[r][c]
      {
        PartialAt(p, c, n, r);
        assert Column(p, c)[..n] == Column(p, c);
      }
    }
  }

  // ---------------------------------------------------------------------------
  // Rotating a square platform a quarter turn clockwise
  // ---------------------------------------------------------------------------

  /** The cell at row `r`, column `c` of the rotated platform comes from row
      `n - 1 - c`, column `r` of the original. */
  function RotatedClockwise(p: Platform): (q: Platform)
    requires IsSquare(p)
    ensures |q| == |p| && IsSquare(q)
  {
    var n := |p|;
    seq(n, r requires 0 <= r < n => seq(n, c requires 0 <= c < n => p[n - 1 - c][r]))
  }

  /** A row read from right to left. */
  function Reversed(s: seq<char>): (t: seq<char>)
    ensures |t| == |s|
  {
    seq(|s|, i requires 0 <= i < |s| => s[|s| - 1 - i])
  }

  /** The platform mirrored in its main diagonal. */
  function Transposed(p: Platform): (q: Platform)
    requires IsSquare(p)
    ensures |q| == |p| && IsSquare(q)
  {
    var n := |p|;
    seq(n, r requires 0 <= r < n => seq(n, c requires 0 <= c < n => p[c][r]))
  }

  /** Swaps the cell at row `i`, column `j` with its mirror image at row `j`,
      column `i`. */
  method SwapMirrored(q: Platform, i: nat, j: nat) returns (q': Platform)
    requires IsSquare(q) && i < j < |q|
    ensures |q'| == |q| && IsSquare(q')
    ensures forall r, c :: 0 <= r < |q| && 0 <= c < |q| ==>
      q'[r][c] == if r == i && c == j then q[j][i] else if r == j && c == i then q[i][j] else q[r][c]
  {
    var temp := q[i][j];
    q' := q[i := q[i][j := q[j][i]]];
    q' := q'[j := q'[j][i := temp]];
  }

  /** The first half of `rotate_platform`: the square platform is transposed
      in place, each cell above the diagonal swapped with its mirror image. */
  method TransposeInPlace(p: Platform) returns (q: Platform)
    requires IsSquare(p)
    ensures q == Transposed(p)
  {
    q := p;
    var n := |p|;
    var row := 0;
    while row < n
      invariant 0 <= row <= n
      invariant |q| == n && IsSquare(q)
      invariant forall r, c {:trigger q[r][c]} :: 0 <= r < n && 0 <= c < n ==>
        q[r][c] == if r < row || c < row then p[c][r] else p[r][c]
    {
      var col := row + 1;
      while col < n
        invariant row + 1 <= col <= n
        invariant |q| == n && IsSquare(q)
        invariant forall r, c {:trigger q[r][c]} :: 0 <= r < n && 0 <= c < n ==>
          q[r][c] == if (r < row || c < row || (r == row && c < col) || (c == row && r < col))
                     then p[c][r] else p[r][c]
      {
        ghost var before := q;
        q := SwapMirrored(q, row, col);
        forall r, c | 0 <= r < n && 0 <= c < n
          ensures q[r][c] == if (r < row || c < row || (r == row && c <= col) || (c == row && r <= col))
                             then p[c][r] else p[r][c]
        {
          if r == row && c == col {
            assert q[r][c] == before[col][row];
          } else if r == col && c == row {
            assert q[r][c] == before[row][col];
          } else {
            assert q[r][c] == before[r][c];
          }
        }
        col := col + 1;
      }
      row := row + 1;
    }
    forall r | 0 <= r < n
      ensures q[r] == Transposed(p)[r]
    {
    }
  }

  /** The second half of `rotate_platform`: every row is reversed in place. */
  method ReverseRows(p: Platform) returns (q: Platform)
    requires IsSquare(p)
    ensures |q| == |p| && IsSquare(q)
    ensures forall r, c :: 0 <= r < |p| && 0 <= c < |p| ==> q[r][c] == p[r][|p| - 1 - c]
  {
    q := p;
    var i := 0;
    while i < |p|
      invariant 0 <= i <= |p|
      invariant |q| == |p| && IsSquare(q)
      invariant forall r :: 0 <= r < |p| ==> q[r] == if r < i then Reversed(p[r]) else p[r]
    {
      q := q[i := Reversed(q[i])];
      i := i + 1;
    }
  }

  /** `rotate_platform`: a transposition followed by reversing every row
      turns the square platform a quarter turn clockwise. */
  method RotatePlatform(p: Platform) returns (q: Platform)
    requires IsSquare(p)
    ensures q == RotatedClockwise(p)
  {
    q := TransposeInPlace(p);
    q := ReverseRows(q);
    forall r | 0 <= r < |p|
      ensures q[r] == RotatedClockwise(p)[r]
    {
    }
  }

  /** Four quarter turns bring every square platform back to itself. */
  lemma RotateFourTimesIsIdentity(p: Platform)
    requires IsSquare(p)
    ensures RotatedClockwise(RotatedClockwise(RotatedClockwise(RotatedClockwise(p)))) == p
  {
    var n := |p|;
    var h := RotatedClockwise(RotatedClockwise(p));
    assert forall r, c :: 0 <= r < n && 0 <= c < n ==> h[r][c] == p[n - 1 - r][n - 1 - c];
    var f := RotatedClockwise(RotatedClockwise(h));
    assert forall r, c :: 0 <= r < n && 0 <= c < n ==> f[r][c] == h[n - 1 - r][n - 1 - c];
    assert forall r :: 0 <= r < n ==> f[r] == p[r];
  }

  // ---------------------------------------------------------------------------
  // Spin cycles and the cycle-skipping simulation
  // ---------------------------------------------------------------------------

  /** `k` times a north tilt followed by a clockwise quarter turn. */
  function TiltAndTurn(p: Platform, k: nat): (q: Platform)
    requires IsSquare(p)
    ensures |q| == |p| && IsSquare(q)
    decreases k
  {
    if k == 0 then p else TiltAndTurn(RotatedClockwise(TiltedNorth(p)), k - 1)
  }

  /** One spin cycle: tilt north, west, south and east, each tilt done as a
      north tilt followed by a clockwise quarter turn. Only a square platform
      can be turned in place; any other platform is left as it is. */
  function SpinCycle(p: Platform): (q: Platform)
    ensures IsSquare(p) ==> |q| == |p| && IsSquare(q)
  {
    if IsSquare(p) then TiltAndTurn(p, 4) else p
  }

  /** `f` applied `k` times, one after the other. */
  function Repeat<T>(f: T -> T, x: T, k: nat): T {
    if k == 0 then x else f(Repeat(f, x, k - 1))
  }

  /** Applying `f` `a + b` times is applying it `b` more times after the
      first `a`. */
  lemma {:induction false} RepeatAdd<T>(f: T -> T, x: T, a: nat, b: nat)
    ensures Repeat(f, x, a + b) == Repeat(f, Repeat(f, x, a), b)
  {
    if b > 0 {
      RepeatAdd(f, x, a, b - 1);
    }
  }

  /** Once the value after `a` steps comes back after `a + d`, it comes back
      after every further multiple of `d`. */
  lemma {:induction false} RepeatIsPeriodic<T>(f: T -> T, x: T, a: nat, d: nat, k: nat)
    requires Repeat(f, x, a) == Repeat(f, x, a + d)
    ensures Repeat(f, x, a + k * d) == Repeat(f, x, a)
  {
    if k > 0 {
      calc {
        Repeat(f, x, a + k * d);
        { assert a + k * d == (a + d) + (k - 1) * d; RepeatAdd(f, x, a + d, (k - 1) * d); }
        Repeat(f, Repeat(f, x, a + d), (k - 1) * d);
        { RepeatAdd(f, x, a, (k - 1) * d); }
        Repeat(f, x, a + (k - 1) * d);
        { RepeatIsPeriodic(f, x, a, d, k - 1); }
        Repeat(f, x, a);
      }
    }
  }

  /** When the value `y` after `j` steps comes back after `i > j` steps and
      the period `i - j` divides the steps left up to `total`, `y` is also
      the value after `total` steps. */
  lemma SkipWholePeriods<T>(f: T -> T, x: T, y: T, j: nat, i: nat, total: nat, remaining: nat, period: nat)
    requires j < i <= total && remaining == total - i && period == i - j && remaining % period == 0
    requires Repeat(f, x, j) == y && Repeat(f, x, i) == y
    ensures Repeat(f, x, total) == y
  {
    var m := remaining / period;
    assert total == j + (m + 1) * period;
    RepeatIsPeriodic(f, x, j, period, m + 1);
  }

  /** Every value in `cache` maps to a step before `i` after which `f`,
      applied from `x`, gives that value. */
  ghost predicate RecordsSteps<T(!new)>(f: T -> T, x: T, cache: map<T, nat>, i: nat) {
    forall y :: y in cache ==> 1 <= cache[y] < i && Repeat(f, x, cache[y]) == y
  }

  /** Recording the value `y` after step `i` keeps the cache faithful for
      the steps up to `i`, and a step already recorded for `y` came earlier
      and gave `y` too. */
  lemma RecordStep<T(!new)>(f: T -> T, x: T, cache: map<T, nat>, i: nat, y: T)
    requires 1 <= i && RecordsSteps(f, x, cache, i) && y == Repeat(f, x, i)
    ensures RecordsSteps(f, x, cache[y := i], i + 1)
    ensures y in cache ==> 1 <= cache[y] < i && Repeat(f, x, cache[y]) == y
  {
  }

  /** The bookkeeping at the end of step `i` of `cycle`: `cache.insert(y, i)`,
      and the decision to stop when `y` was seen before at a step whose
      distance to `i` divides the steps left. Stopping is safe: `y` is then
      also the value after `total` steps. */
  method Remember<T(!new)>(f: T -> T, x: T, cache: map<T, nat>, i: nat, total: nat, y: T)
    returns (cache': map<T, nat>, stop: bool)
    requires 1 <= i <= total && RecordsSteps(f, x, cache, i) && y == Repeat(f, x, i)
    ensures cache' == cache[y := i] && RecordsSteps(f, x, cache', i + 1)
    ensures stop <==> y in cache && (total - i) % (i - cache[y]) == 0
    ensures stop ==> Repeat(f, x, total) == y
  {
    RecordStep(f, x, cache, i, y);
    var previous := if y in cache then Some(cache[y]) else None;
    cache' := cache[y := i];
    stop := false;
    if previous.Some? {
      var cycleNumber := previous.value;
      var cyclesRemaining := total - i;
      var cyclesUntilRepeat := i - cycleNumber;
      if cyclesRemaining % cyclesUntilRepeat == 0 {
        SkipWholePeriods(f, x, y, cycleNumber, i, total, cyclesRemaining, cyclesUntilRepeat);
        stop := true;
      }
    }
  }

  /** The body of the loop of `cycle`: tilt north, west, south and east,
      turning the platform a quarter turn after each tilt. */
  method RunSpinCycle(p: Platform) returns (q: Platform)
    requires IsSquare(p)
    ensures q == SpinCycle(p)
  {
    // North
    q := TiltNorth(p);
    q := RotatePlatform(q);
    assert TiltAndTurn(q, 3) == TiltAndTurn(p, 4);
    // West
    q := TiltNorth(q);
    q := RotatePlatform(q);
    assert TiltAndTurn(q, 2) == TiltAndTurn(p, 4);
    // South
    q := TiltNorth(q);
    q := RotatePlatform(q);
    assert TiltAndTurn(q, 1) == TiltAndTurn(p, 4);
    // East
    q := TiltNorth(q);
    q := RotatePlatform(q);
  }

  /** `cycle`: runs spin cycles `1..=times`, remembering the last step at which
      each platform was seen. When the platform after step `i` was already
      seen at step `j`, it recurs every `i - j` steps; if that period divides
      the remaining steps, the final platform is the current one and the loop
      stops early. Either way the result is that of `times` spin cycles run
      one after the other. */
  method Cycle(p: Platform, times: nat) returns (q: Platform)
    requires IsSquare(p)
    ensures q == Repeat(SpinCycle, p, times) && IsSquare(q)
  {
    var cache: map<Platform, nat> := map[];
    q := p;
    var i := 1;
    while i <= times
      invariant 1 <= i <= times + 1
      invariant q == Repeat(SpinCycle, p, i - 1) && IsSquare(q)
      invariant RecordsSteps(SpinCycle, p, cache, i)
    {
      q := RunSpinCycle(q);
      var stop;
      cache, stop := Remember(SpinCycle, p, cache, i, times, q);
      if stop {
        break;
      }
      i := i + 1;
    }
    assert q == Repeat(SpinCycle, p, times);
  }

  // ---------------------------------------------------------------------------
  // The two answers
  // ---------------------------------------------------------------------------

  /** `parse_platform`: one row per line of the input. */
  function ParsePlatform(input: string): (p: Platform)
    ensures |p| == |Text.Lines(input)|
  {
    Text.Lines(input)
  }

  /** `part_1`: the load after one tilt north, never below the load before. */
  method Part1(input: string) returns (load: nat)
    requires IsRectangular(ParsePlatform(input))
    ensures load == NorthLoad(TiltedNorth(ParsePlatform(input)))
    ensures load >= NorthLoad(ParsePlatform(input))
  {
    var platform := ParsePlatform(input);
    platform := TiltNorth(platform);
    load := CalculateNorthSupportBeamLoad(platform);
  }

  /** `part_2`: the load after a billion spin cycles. Turning in place needs
      a square platform. */
  method Part2(input: string) returns (load: nat)
    requires IsSquare(ParsePlatform(input))
    ensures load == NorthLoad(Repeat(SpinCycle, ParsePlatform(input), 1000000000))
  {
    var platform := ParsePlatform(input);
    platform := Cycle(platform, 1000000000);
    load := CalculateNorthSupportBeamLoad(platform);
  }
}
