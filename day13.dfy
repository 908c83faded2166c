/**
 * Point of Incidence: each pattern of ash `.` and rocks `#` has one line of
 * reflection, between two columns or between two rows. A vertical line is
 * found by comparing, in every row, the cells left of it read backwards with
 * the cells right of it; a horizontal line by doing the same on the pattern
 * turned on its side. The first answer allows no mismatch, the second
 * exactly one (the smudge); the summary adds the columns left of each
 * vertical line and 100 times the rows above each horizontal one.
 */
module Day13 {
  import opened Wrappers
  import opened Grids
  import Text

  type Pattern = Grid

  function Reverse<T>(s: seq<T>): (r: seq<T>)
    ensures |r| == |s|
    ensures forall k :: 0 <= k < |s| ==> r[k] == s[|s| - 1 - k]
  {
    if |s| == 0 then [] else Reverse(s[1..]) + [s[0]]
  }

  /** `zip(a, b).filter(|(x, y)| x != y).count()`: the positions, up to the
      shorter length, where the two differ. */
  function ZipMismatches(a: seq<char>, b: seq<char>): (n: nat)
    ensures n <= |a| && n <= |b|
  {
    if |a| == 0 || |b| == 0 then 0
    else (if a[0] != b[0] then 1 else 0) + ZipMismatches(a[1..], b[1..])
  }

  /** No mismatch means equal up to the shorter length. */
  lemma {:induction false} ZipMismatchesZero(a: seq<char>, b: seq<char>)
    ensures ZipMismatches(a, b) == 0 <==> forall k :: 0 <= k < |a| && k < |b| ==> a[k] == b[k]
  {
    if |a| > 0 && |b| > 0 {
      ZipMismatchesZero(a[1..], b[1..]);
      if ZipMismatches(a, b) == 0 {
        forall k | 0 <= k < |a| && k < |b| ensures a[k] == b[k] {
          if k > 0 { assert a[k] == a[1..][k - 1] && b[k] == b[1..][k - 1]; }
        }
      } else if a[0] == b[0] {
        var k :| 0 <= k < |a[1..]| && k < |b[1..]| && a[1..][k] != b[1..][k];
        assert a[k + 1] != b[k + 1];
      }
    }
  }

  /** The mismatches in one row for a line of reflection left of column
      `index`: the cells before it, reversed, against the cells from it on. */
  function RowDiffs(row: seq<char>, index: nat): (d: nat)
    requires index <= |row|
    ensures d <= index && d <= |row| - index
  {
    ZipMismatches(Reverse(row[..index]), row[index..])
  }

  /** The row reads the same in both directions away from the line left of
      column `index`, as far as the shorter side reaches: cells `i` and `j`
      at the same distance from the line hold the same. */
  predicate MirroredAt(row: seq<char>, index: nat)
    requires index <= |row|
  {
    forall i, j :: 0 <= i < index <= j < |row| && i + j == 2 * index - 1 ==> row[i] == row[j]
  }

  /** A row has no mismatch exactly when it is mirrored at the line. */
  lemma RowDiffsZero(row: seq<char>, index: nat)
    requires index <= |row|
    ensures RowDiffs(row, index) == 0 <==> MirroredAt(row, index)
  {
    var left, right := Reverse(row[..index]), row[index..];
    ZipMismatchesZero(left, right);
    if RowDiffs(row, index) == 0 {
      forall i, j | 0 <= i < index <= j < |row| && i + j == 2 * index - 1 ensures row[i] == row[j] {
        assert left[j - index] == right[j - index];
      }
    } else {
      var k :| 0 <= k < |left| && k < |right| && left[k] != right[k];
      assert row[index - 1 - k] != row[index + k];
    }
  }

  /** Every row reaches column `index`. */
  predicate RowsReach(pattern: Pattern, index: nat) {
    forall r :: 0 <= r < |pattern| ==> index <= |pattern[r]|
  }

  /** `count_reflection_diffs`: the mismatches of all rows added up. */
  function CountReflectionDiffs(pattern: Pattern, index: nat): (n: nat)
    requires RowsReach(pattern, index)
    ensures n <= |pattern| * index
  {
    if |pattern| == 0 then 0
    else
      assert |pattern| * index == index + (|pattern| - 1) * index;
      RowDiffs(pattern[0], index) + CountReflectionDiffs(pattern[1..], index)
  }

  /** No mismatch at all means every row is mirrored at the line. */
  lemma {:induction false} ReflectionDiffsZero(pattern: Pattern, index: nat)
    requires RowsReach(pattern, index)
    ensures CountReflectionDiffs(pattern, index) == 0 <==> forall r :: 0 <= r < |pattern| ==> MirroredAt(pattern[r], index)
  {
    if |pattern| > 0 {
      ReflectionDiffsZero(pattern[1..], index);
      RowDiffsZero(pattern[0], index);
      if CountReflectionDiffs(pattern, index) == 0 {
        forall r | 0 <= r < |pattern| ensures MirroredAt(pattern[r], index) {
          if r > 0 { assert pattern[r] == pattern[1..][r - 1]; }
        }
      } else if RowDiffs(pattern[0], index) == 0 {
        var r :| 0 <= r < |pattern[1..]| && !MirroredAt(pattern[1..][r], index);
        assert !MirroredAt(pattern[r + 1], index);
      }
    }
  }

  /** The search of `find_reflection_index` from column `i` on. */
  function FindFrom(pattern: Pattern, allowed: nat, i: nat): (r: Option<nat>)
    requires |pattern| > 0 && IsRectangular(pattern) && 1 <= i <= Width(pattern)
    ensures r.Some? ==> i <= r.value < Width(pattern) && CountReflectionDiffs(pattern, r.value) == allowed
    ensures r.Some? ==> forall j :: i <= j < r.value ==> CountReflectionDiffs(pattern, j) != allowed
    ensures r.None? ==> forall j :: i <= j < Width(pattern) ==> CountReflectionDiffs(pattern, j) != allowed
    decreases Width(pattern) - i
  {
    if i == Width(pattern) then None
    else if CountReflectionDiffs(pattern, i) == allowed then Some(i)
    else FindFrom(pattern, allowed, i + 1)
  }

  /** `find_reflection_index`: the first line of reflection, counted in
      columns left of it, whose mismatches number exactly `allowed`. */
  function FindReflectionIndex(pattern: Pattern, allowed: nat): (r: Option<nat>)
    requires |pattern| > 0 && IsRectangular(pattern)
    ensures r.Some? ==> 1 <= r.value < Width(pattern) && CountReflectionDiffs(pattern, r.value) == allowed
    ensures r.Some? ==> forall j :: 1 <= j < r.value ==> CountReflectionDiffs(pattern, j) != allowed
    ensures r.None? ==> forall j :: 1 <= j < Width(pattern) ==> CountReflectionDiffs(pattern, j) != allowed
  {
    if Width(pattern) == 0 then None else FindFrom(pattern, allowed, 1)
  }

  /** A line found with no mismatch allowed is a true mirror of every row. */
  lemma PerfectReflection(pattern: Pattern)
    requires |pattern| > 0 && IsRectangular(pattern) && FindReflectionIndex(pattern, 0).Some?
    ensures var index := FindReflectionIndex(pattern, 0).value;
      forall r :: 0 <= r < |pattern| ==> MirroredAt(pattern[r], index)
  {
    ReflectionDiffsZero(pattern, FindReflectionIndex(pattern, 0).value);
  }

  /** `rotate_pattern`: column `c` becomes row `c`. */
  function RotatePattern(pattern: Pattern): (t: Pattern)
    requires |pattern| > 0 && IsRectangular(pattern)
    ensures |t| == Width(pattern)
    ensures forall c :: 0 <= c < |t| ==> |t[c]| == |pattern|
    ensures forall c, r :: 0 <= c < |t| && 0 <= r < |pattern| ==> t[c][r] == pattern[r][c]
  {
    seq(Width(pattern), c requires 0 <= c < Width(pattern) =>
      seq(|pattern|, r requires 0 <= r < |pattern| => pattern[r][c]))
  }

  /** Turning a pattern twice gives it back. */
  lemma RotateTwice(pattern: Pattern)
    requires |pattern| > 0 && IsRectangular(pattern) && Width(pattern) > 0
    ensures IsRectangular(RotatePattern(pattern))
    ensures RotatePattern(RotatePattern(pattern)) == pattern
  {
    var t := RotatePattern(pattern);
    assert Width(t) == |pattern|;
    var u := RotatePattern(t);
    forall r | 0 <= r < |pattern| ensures u[r] == pattern[r] {
      assert |u[r]| == |pattern[r]|;
    }
  }

  /** The rows above the line below row `index - 1` read, upwards, the same
      as the rows below it, downwards, as far as the shorter side reaches. */
  predicate RowsMirroredAt(pattern: Pattern, index: nat) {
    forall i, j :: 0 <= i < index <= j < |pattern| && i + j == 2 * index - 1 ==> pattern[i] == pattern[j]
  }

  /** On the turned pattern, no mismatch at `index` means the rows are
      mirrored at the horizontal line there. */
  lemma HorizontalReflection(pattern: Pattern, index: nat)
    requires |pattern| > 0 && IsRectangular(pattern) && index <= |pattern|
    ensures RowsReach(RotatePattern(pattern), index)
    ensures CountReflectionDiffs(RotatePattern(pattern), index) == 0 <==> RowsMirroredAt(pattern, index)
  {
    var t := RotatePattern(pattern);
    ReflectionDiffsZero(t, index);
    if CountReflectionDiffs(t, index) == 0 {
      MirroredColumnsMirrorRows(pattern, index);
    } else {
      var c :| 0 <= c < |t| && !MirroredAt(t[c], index);
      var i, j :| 0 <= i < index <= j < |t[c]| && i + j == 2 * index - 1 && t[c][i] != t[c][j];
      assert pattern[i][c] != pattern[j][c];
    }
  }

  /** Columns that are each mirrored at `index` make rows mirrored there. */
  lemma MirroredColumnsMirrorRows(pattern: Pattern, index: nat)
    requires |pattern| > 0 && IsRectangular(pattern) && index <= |pattern|
    requires forall c :: 0 <= c < Width(pattern) ==> MirroredAt(RotatePattern(pattern)[c], index)
    ensures RowsMirroredAt(pattern, index)
  {
    var t := RotatePattern(pattern);
    forall i, j | 0 <= i < index <= j < |pattern| && i + j == 2 * index - 1 ensures pattern[i] == pattern[j] {
      forall c | 0 <= c < Width(pattern) ensures pattern[i][c] == pattern[j][c] {
        assert MirroredAt(t[c], index);
        assert t[c][i] == t[c][j];
      }
    }
  }

  /** The number of leading lines before the first empty one (all of them
      when there is none): the `take_while` of `parse_patterns`. */
  function BlockLength(lines: seq<string>): (n: nat)
    ensures n <= |lines|
    ensures forall k :: 0 <= k < n ==> |lines[k]| > 0
    ensures n < |lines| ==> |lines[n]| == 0
  {
    if |lines| == 0 || |lines[0]| == 0 then 0 else 1 + BlockLength(lines[1..])
  }

  /** `parse_patterns`: the blocks of lines between empty lines. Each
      `take_while` also consumes the empty line that ends it. */
  function ParsePatterns(lines: seq<string>): (patterns: seq<Pattern>)
    ensures forall p, k :: 0 <= p < |patterns| && 0 <= k < |patterns[p]| ==> |patterns[p][k]| > 0
    decreases |lines|
  {
    if |lines| == 0 then []
    else
      var n := BlockLength(lines);
      [lines[..n]] + ParsePatterns(if n < |lines| then lines[n + 1..] else [])
  }

  /** The blocks written back with an empty line between each two. */
  function JoinPatterns(patterns: seq<Pattern>): seq<string>
    requires |patterns| > 0
  {
    if |patterns| == 1 then patterns[0] else patterns[0] + [""] + JoinPatterns(patterns[1..])
  }

  /** Blocks of non-empty lines, the last one not empty, are read back from
      their text. */
  lemma {:induction false} ParseJoin(patterns: seq<Pattern>)
    requires |patterns| > 0 && |patterns[|patterns| - 1]| > 0
    requires forall p, k :: 0 <= p < |patterns| && 0 <= k < |patterns[p]| ==> |patterns[p][k]| > 0
    ensures ParsePatterns(JoinPatterns(patterns)) == patterns
  {
    var head := patterns[0];
    if |patterns| == 1 {
      BlockAfter(head, []);
      assert head + [] == head;
    } else {
      ParseJoin(patterns[1..]);
      ParseBlockThenRest(head, JoinPatterns(patterns[1..]));
      assert patterns == [head] + patterns[1..];
    }
  }

  /** A block of non-empty lines, an empty line and more text: the block is
      the first pattern, the text after the empty line gives the others. */
  lemma ParseBlockThenRest(block: seq<string>, rest: seq<string>)
    requires forall k :: 0 <= k < |block| ==> |block[k]| > 0
    ensures ParsePatterns(block + [""] + rest) == [block] + ParsePatterns(rest)
  {
    var lines := block + [""] + rest;
    BlockAfter(block, [""] + rest);
    assert lines == block + ([""] + rest);
    assert lines[|block| + 1..] == rest;
  }

  /** A block of non-empty lines followed by an empty line (or by nothing) is
      one whole block. */
  lemma {:induction false} BlockAfter(block: seq<string>, rest: seq<string>)
    requires forall k :: 0 <= k < |block| ==> |block[k]| > 0
    requires |rest| == 0 || |rest[0]| == 0
    ensures BlockLength(block + rest) == |block|
    ensures (block + rest)[..|block|] == block
  {
    if |block| > 0 {
      assert (block + rest)[1..] == block[1..] + rest;
      BlockAfter(block[1..], rest);
    } else {
      assert block + rest == rest;
    }
  }

  /** A pattern the search can work on: at least one row, all as long as
      the first, and at least one column. */
  predicate IsPattern(pattern: Pattern) {
    |pattern| > 0 && IsRectangular(pattern) && Width(pattern) > 0
  }

  predicate AllPatterns(patterns: seq<Pattern>) {
    forall p :: 0 <= p < |patterns| ==> IsPattern(patterns[p])
  }

  /** The found index, or nothing: the `flat_map` over an `Option`. */
  function IndexOrZero(found: Option<nat>): nat {
    if found.Some? then found.value else 0
  }

  /** The columns left of each vertical line found. */
  function ColumnsLeft(patterns: seq<Pattern>, allowed: nat): nat
    requires AllPatterns(patterns)
  {
    if |patterns| == 0 then 0
    else
      assert IsPattern(patterns[0]);
      assert AllPatterns(patterns[1..]) by {
        forall p | 0 <= p < |patterns| - 1 ensures IsPattern(patterns[1..][p]) {
          assert patterns[1..][p] == patterns[p + 1];
        }
      }
      IndexOrZero(FindReflectionIndex(patterns[0], allowed)) + ColumnsLeft(patterns[1..], allowed)
  }

  /** The rows above each horizontal line found, searched on the turned
      pattern. */
  function RowsAbove(patterns: seq<Pattern>, allowed: nat): nat
    requires AllPatterns(patterns)
  {
    if |patterns| == 0 then 0
    else
      assert IsPattern(patterns[0]);
      assert AllPatterns(patterns[1..]) by {
        forall p | 0 <= p < |patterns| - 1 ensures IsPattern(patterns[1..][p]) {
          assert patterns[1..][p] == patterns[p + 1];
        }
      }
      RotateTwice(patterns[0]);
      IndexOrZero(FindReflectionIndex(RotatePattern(patterns[0]), allowed)) + RowsAbove(patterns[1..], allowed)
  }

  /** Each pattern adds fewer columns than it has, and fewer rows. */
  lemma {:induction false} SummaryBounds(patterns: seq<Pattern>, allowed: nat)
    requires AllPatterns(patterns)
    ensures ColumnsLeft(patterns, allowed) <= SumWidths(patterns) - |patterns|
    ensures RowsAbove(patterns, allowed) <= SumHeights(patterns) - |patterns|
  {
    if |patterns| > 0 {
      SummaryBounds(patterns[1..], allowed);
      RotateTwice(patterns[0]);
    }
  }

  function SumWidths(patterns: seq<Pattern>): nat {
    if |patterns| == 0 then 0 else Width(patterns[0]) + SumWidths(patterns[1..])
  }

  function SumHeights(patterns: seq<Pattern>): nat {
    if |patterns| == 0 then 0 else |patterns[0]| + SumHeights(patterns[1..])
  }

  /** `summarize_patterns`: columns left of the vertical lines plus 100 times
      the rows above the horizontal lines, with no mismatch allowed, or with
      exactly one when smudges are allowed. */
  function SummarizePatterns(lines: seq<string>, allowSmudges: bool): (total: nat)
    requires AllPatterns(ParsePatterns(lines))
    ensures var patterns := ParsePatterns(lines);
      total <= (SumWidths(patterns) - |patterns|) + 100 * (SumHeights(patterns) - |patterns|)
  {
    var patterns := ParsePatterns(lines);
    var allowed := if allowSmudges then 1 else 0;
    SummaryBounds(patterns, allowed);
    ColumnsLeft(patterns, allowed) + 100 * RowsAbove(patterns, allowed)
  }

  predicate IsValidInput(input: string) {
    AllPatterns(ParsePatterns(Text.Lines(input)))
  }

  /** `part_1`: lines of reflection with no mismatch. */
  function Part1(input: string): (total: nat)
    requires IsValidInput(input)
    ensures var patterns := ParsePatterns(Text.Lines(input));
      total == ColumnsLeft(patterns, 0) + 100 * RowsAbove(patterns, 0)
  {
    SummarizePatterns(Text.Lines(input), false)
  }

  /** `part_2`: lines of reflection with exactly one mismatch, the smudge. */
  function Part2(input: string): (total: nat)
    requires IsValidInput(input)
    ensures var patterns := ParsePatterns(Text.Lines(input));
      total == ColumnsLeft(patterns, 1) + 100 * RowsAbove(patterns, 1)
  {
    SummarizePatterns(Text.Lines(input), true)
  }
}
