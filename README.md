# Advent of Code 2023 solvers, days 1 to 16, modelled in Dafny

This project models sixteen puzzle solvers, one for each of the first
sixteen days of Advent of Code 2023. Each solver reads a puzzle input as
text and computes two answers. There is one Dafny module per solver, in
`day01.dfy` to `day16.dfy`:

- Day01: calibration values. The first and last digit of a line, where
  part 2 also counts spelled-out digit words.
- Day02: cube games. The fewest cubes of each colour a game needs, and
  whether the bag of 12 red, 13 green and 14 blue cubes allows it.
- Day03: the engine schematic. Part numbers are runs of digits next to a
  symbol; gear ratios are products of the two numbers next to a `*`.
- Day04: scratchcards. Points per card, and copies won that spread
  forward through the card table, held in an array.
- Day05: the almanac. A seed goes through the range maps one after the
  other; the answer is the lowest location.
- Day06: boat races. The number of hold times that beat the record.
- Day07: Camel Cards. Card order, hand types with and without jokers, and
  the winnings of the hands sorted by strength.
- Day08: the desert network. Walking the left/right instructions, and the
  least common multiple of the walks for ghosts starting at every `A`
  node.
- Day09: the oasis report. Repeated differences, and extrapolation
  forwards and backwards.
- Day10: the pipe maze. Tracing the loop from `S`, and counting the cells
  inside it by a row-by-row parity scan.
- Day11: cosmic expansion. Distances between galaxies when every empty
  row and column is stretched.
- Day12: hot springs. Every filling of the unknown `?` springs, checked
  against the damaged-group sizes.
- Day13: mirrors. Reflection lines found by counting mismatched cells,
  with zero mismatches allowed in part 1 and exactly one in part 2.
- Day14: the parabolic reflector dish. The centre of the model.
  - Rolling round rocks north.
  - Rotating the platform in place.
  - The spin cycle. It runs for a billion cycles, with a cache that jumps
    over whole periods once a state repeats. The method is proved equal
    to applying the cycle that many times one by one.
- Day15: the HASH algorithm, and the boxes of lenses it selects.
- Day16: the light beam through mirrors and splitters, counting the
  energised tiles from every edge entry.

Shared helper modules:

- `Wrappers`: an `Option` type.
- `Text`: lines, splitting, words and decimal numbers, as the solvers use
  them.
- `Sums`: sums over sequences and sets.
- `Grids`: rectangular grids of characters.
- `Extrema`: the maximum and minimum of a list.
- `Sorting`: a sort by key.

Modelling conventions:

- Text is a sequence of ASCII characters.
- Grids are sequences of rows.
- Hash maps and hash sets are Dafny maps and sets.
- A call that would panic (`unwrap` on nothing, an index off the grid)
  becomes a precondition, or an explicit error result where the solver's
  control flow decides it.

Where a solver loops and updates variables, the model is a method with
loop invariants. It is proved against a function that states the answer
directly. Each `part_1` and `part_2` is modelled. For days 1, 2, 4, 6,
9 and 15, lemmas work through the examples of the solvers' own tests.
Most of them start from values written out by hand (the digit positions
of each line, the parsed games, the match counts, the parsed histories,
the step texts) rather than from the raw example text, and they state
the totals over those values. Part 2 of day 15 is not among them.

## Model

| member | source | states |
|---|---|---|
| Day01.FindDigit | day01.rs:50-55 | the value of the first character that is a digit, no digit before it; a line with no digit is excluded because `unwrap` panics |
| Day01.Reverse | day01.rs:27 | `chars().rev()`: same length, character `i` is the line's character `len - 1 - i` |
| Day01.FindDigitReversed | day01.rs:27 | `find_digit` over the reversed characters gives the line's last digit |
| Day01.LineValue | day01.rs:29-31 | formatting two digits side by side and parsing them gives `10 * first + last` |
| Day01.CalibrationValue | day01.rs:25-32 | a line's part 1 value, two digits written side by side, is at most 99 |
| Day01.CalibrationValueOfDigits | day01.rs:25-32 | a line's part 1 value is ten times its first digit plus its last digit |
| Day01.Part1 | day01.rs:22-34 | the total of the lines' two-digit values is at most 99 times the number of lines |
| Day01.WordAt | day01.rs:3-13 | the first word of `NUMBERS` that starts at an index gives a value in 1..=9 |
| Day01.WordAtNone | day01.rs:3-13 | no spelled digit is found at an index exactly when none of the nine words occurs there |
| Day01.DistinctKeys | day01.rs:3-13 | the nine words differ within their first three letters, so no two start at the same place |
| Day01.WordStartsAt | day01.rs:3-13 | a spelled digit that occurs at an index is the number there |
| Day01.FirstNumberAt | day01.rs:57-77 | the first number of a line is the one at the earliest index where a digit or a spelled digit starts |
| Day01.FirstNumberNone | day01.rs:58-76 | a line where no number starts has first number 0, the initial `result` |
| Day01.LastNumberAt | day01.rs:79-99 | the last number of a line is the one at the latest index where a digit or a spelled digit starts |
| Day01.LastNumberNone | day01.rs:80-98 | a line where no number starts has last number 0 |
| Day01.FindDigitIndex | day01.rs:70 | `find(is_numeric)`: the index of the first digit, no digit before it, `None` exactly when there is no digit |
| Day01.RFindDigitIndex | day01.rs:92 | `rfind(is_numeric)`: the index of the last digit, no digit after it, `None` exactly when there is no digit |
| Day01.FirstWordStep | day01.rs:61-67 | one turn of the word loop keeps the invariant: the current word takes over only when it occurs strictly before the index held |
| Day01.FindFirstNumber | day01.rs:57-77 | the method's result is the value of the number that starts earliest in the line |
| Day01.NoFirstWordsBeyond | day01.rs:61-68 | after the word loop no spelled digit starts before the index found |
| Day01.FirstNumberOfLine | day01.rs:70-74 | the digit found replaces the word result exactly when it comes strictly earlier |
| Day01.LastWordStep | day01.rs:83-89 | one turn of the word loop keeps the invariant: the current word takes over only when its last occurrence is strictly after the index held |
| Day01.FindLastNumber | day01.rs:79-99 | the method's result is the value of the number that starts latest in the line |
| Day01.NoLastWordsBeyond | day01.rs:83-90 | after the word loop no spelled digit starts after the index found |
| Day01.LastNumberOfLine | day01.rs:92-96 | the digit found replaces the word result exactly when it comes strictly later |
| Day01.Part2 | day01.rs:36-48 | the total is the sum over the lines of ten times the first number plus the last number |
| Day01.SampleLine | day01.rs:110-113 | each line of the part 1 sample, with the indices of its first and last digit, has value 12, 38, 15 or 77 |
| Day01.FourLines | day01.rs:22-34 | four lines with digits sum to the sum of their values |
| Day01.SampleCalibration | day01.rs:108-115 | the part 1 sample adds up to 142 |
| Day01.SpelledTwo1nineFirst | day01.rs:117 | `two1nine` starts with 2 |
| Day01.SpelledTwo1nineLast | day01.rs:117 | `two1nine` ends with 9 |
| Day01.SpelledEightwothreeFirst | day01.rs:118 | `eightwothree` starts with 8 |
| Day01.SpelledEightwothreeLast | day01.rs:118 | `eightwothree` ends with 3 |
| Day01.SpelledAbcone2threexyzFirst | day01.rs:119 | `abcone2threexyz` starts with 1 |
| Day01.SpelledAbcone2threexyzLast | day01.rs:119 | `abcone2threexyz` ends with 3 |
| Day01.SpelledXtwone3fourFirst | day01.rs:120 | `xtwone3four` starts with 2 |
| Day01.SpelledXtwone3fourLast | day01.rs:120 | `xtwone3four` ends with 4 |
| Day01.Spelled4nineeightseven2First | day01.rs:121 | `4nineeightseven2` starts with 4 |
| Day01.Spelled4nineeightseven2Last | day01.rs:121 | `4nineeightseven2` ends with 2 |
| Day01.SpelledZoneight234First | day01.rs:122 | `zoneight234` starts with 1 |
| Day01.SpelledZoneight234Last | day01.rs:122 | `zoneight234` ends with 4 |
| Day01.Spelled7pqrstsixteenFirst | day01.rs:123 | `7pqrstsixteen` starts with 7 |
| Day01.Spelled7pqrstsixteenLast | day01.rs:123 | `7pqrstsixteen` ends with 6 |
| Day01.SevenLines | day01.rs:36-48 | seven lines sum to the sum of their part 2 values |
| Day01.SampleSpelled | day01.rs:117-125 | the part 2 sample adds up to 281 |
| Day02.Minimum | day02.rs:35-47 | the component-wise maximum of the draws holds every draw |
| Day02.MinimumIsLeastBound | day02.rs:35-47 | the component-wise maximum bounds every draw, each component is 0 or taken from some draw, and it lies within every bag that holds all draws |
| Day02.MinimumCubesNeeded | day02.rs:35-47 | the loop of running `cmp::max` computes that least bag |
| Day02.IsGamePossible | day02.rs:49-53 | a game is possible exactly when its least bag fits in 12 red, 13 green, 14 blue; a game with no draws is possible |
| Day02.PowerWithinBag | day02.rs:6-8 | a bag within the limits has power at most 12 * 13 * 14 = 2184 |
| Day02.PossiblePowerBound | day02.rs:28-30 | a possible game's power is at most 2184 |
| Day02.IdSumAtMost | day02.rs:17-23 | the part 1 sum is at most the sum of all ids, and equal to it when every game is possible |
| Day02.PowerSumOfPossible | day02.rs:25-33 | when every game is possible the part 2 sum is at most 2184 per game |
| Day02.UnmentionedCountsZero | day02.rs:65-67 | a colour a draw does not mention counts 0 |
| Day02.LastMentionCounts | day02.rs:69-78 | a colour's count is the number of its last mention in the draw |
| Day02.TallyIsLastMentions | day02.rs:65-81 | the `match` on the colour word over the draw's cubes gives the last mention of each colour |
| Day02.ParseDraw | day02.rs:64-82 | the draw loop yields the draw described by the text |
| Day02.ParseDraws | day02.rs:62-83 | the draws of a game, split at `"; "`, are the described draws |
| Day02.ParseGame | day02.rs:58-86 | a game line gives its id and its draws |
| Day02.GamesOf | day02.rs:55-88 | one game per input line |
| Day02.ParseGames | day02.rs:55-88 | the loop over the lines yields the games of the input |
| Day02.Part1 | day02.rs:17-23 | the result is the sum of the ids of the possible games |
| Day02.Part2 | day02.rs:25-33 | the result is the sum of the powers of the least bags |
| Day02.IdSumStep | day02.rs:17-23 | the part 1 sum grows by a game's id exactly when the game is possible |
| Day02.PowerSumStep | day02.rs:25-33 | the part 2 sum grows by the power of a game's least bag |
| Day02.MinimumStep | day02.rs:40-44 | one more draw takes the component-wise maximum |
| Day02.MinimumOfThree | day02.rs:40-44 | the least bag of three draws, written out |
| Day02.SampleIdSum | day02.rs:92-98 | the sample games give 8 |
| Day02.PowerSumOfFive | day02.rs:25-33 | five games sum to the sum of their powers |
| Day02.SampleMinima | day02.rs:92-96 | the sample games' least bags are (4,2,6), (1,3,4), (20,13,6), (14,3,15) and (6,3,2) |
| Day02.SamplePowerSum | day02.rs:92-99 | the sample games give 2286 |
| Day03.CellsAt | day03.rs:112-131 | every cell kept lies inside the grid |
| Day03.CellsAtMembers | day03.rs:112-131 | a cell is kept exactly when it lies in the grid and its offset is listed |
| Day03.CellsAtDistinct | day03.rs:112-131 | no cell is listed twice |
| Day03.OffsetsAreNeighbours | day03.rs:101-110 | the eight offsets are exactly the non-zero ones in -1..=1 squared |
| Day03.AdjacentCells | day03.rs:100-132 | every adjacent cell returned lies inside the grid |
| Day03.AdjacentCellsSpec | day03.rs:100-132 | the cells returned are exactly the neighbours inside the grid, each once |
| Day03.RunStart | day03.rs:23-25 | the run of digits that ends at a column: all digits, with a non-digit or the line start before it |
| Day03.PartSumAppend | day03.rs:15-52 | the sum of part numbers over two lists of runs adds up |
| Day03.RowRunsClose | day03.rs:36-43 | at a non-digit the run just closed is added when it touches a symbol |
| Day03.RowRunsExtend | day03.rs:24-35 | at a digit the number is shifted left by one digit and the run touches a symbol when it did or this digit does |
| Day03.ScanDigit | day03.rs:24-35 | a digit keeps the scan state: the number grows and `is_valid` records symbols next to the digit |
| Day03.ScanClose | day03.rs:36-48 | closing a run adds its number when valid and resets the state |
| Day03.ScanColumn | day03.rs:23-44 | one column of the row scan keeps the scan state |
| Day03.RowPartSum | day03.rs:19-49 | one row adds the numbers of its runs that touch a symbol |
| Day03.Part1 | day03.rs:15-52 | the result is the sum of the part numbers: runs of digits next to a symbol |
| Day03.GetGears | day03.rs:138-150 | the cells holding `*`, each once, in row-major order |
| Day03.AddToGears | day03.rs:62-68 | pushing a number to the gears among some cells keeps the set of gears |
| Day03.AddPartNumberToAdjacentGears | day03.rs:62-68 | the closure's loop pushes the number onto the list of every gear among the cells |
| Day03.PartsAroundAppend | day03.rs:70-91 | the numbers around a gear from two lists of runs are those of each, in order |
| Day03.PartsAroundSnoc | day03.rs:84-90 | one more run adds its number to a gear's list exactly when the gear is next to it |
| Day03.GearsCloseRun | day03.rs:83-87 | closing a run pushes its number onto the gears next to it |
| Day03.AccountForRun | day03.rs:84-90 | pushing a run's number onto the gears around it keeps every gear's list equal to the numbers around it |
| Day03.GearsCloseNothing | day03.rs:83-87 | closing without a run changes nothing |
| Day03.GearsClose | day03.rs:83-87 | closing at a non-digit or at the row end keeps the gear lists right |
| Day03.GearColumn | day03.rs:74-88 | one column of the gear scan keeps its state |
| Day03.RowGearParts | day03.rs:70-91 | one row pushes each of its runs onto the gears around it |
| Day03.SumRatios | day03.rs:93-97 | the sum over the gears with exactly two numbers of their product, in any order |
| Day03.GearCells | day03.rs:138-150 | the set of `*` cells |
| Day03.HoldsPartsAroundChain | day03.rs:70-91 | accounting rows one after the other accounts all their runs |
| Day03.AccountRows | day03.rs:70-91 | the row loop accounts every run of the grid |
| Day03.FromEmptyLists | day03.rs:57-60 | starting from empty lists, every gear's list is the numbers of the runs around it |
| Day03.GearLists | day03.rs:57-91 | the map holds every gear and, for each, the numbers of the runs around it in reading order |
| Day03.Part2 | day03.rs:54-98 | the result is the sum of the gear ratios of the gears with exactly two numbers |
| Day04.Matches | day04.rs:21-24 | the number of your numbers that are winning numbers is at most how many you hold |
| Day04.MatchesAppend | day04.rs:21-24 | matches of two lists of your numbers add up |
| Day04.MatchesExtremes | day04.rs:21-24 | no match exactly when none of your numbers wins; all match exactly when every one does |
| Day04.Points | day04.rs:33-46 | a card scores nothing exactly when it has no match, and never fewer points than matches |
| Day04.PointsDouble | day04.rs:41-43 | points are 0 exactly without matches, 1 for the first match and double with each further one |
| Day04.CardPoints | day04.rs:34-46 | the loop's result is the points of the card's match count |
| Day04.MatchCounts | day04.rs:20-24 | one match count per card |
| Day04.Propagate | day04.rs:26-28 | adding copies keeps the number of cards |
| Day04.CountsAfter | day04.rs:18-29 | the card counts, one per card |
| Day04.CountsStep | day04.rs:26-28 | card `k` adds its own count to each of the next `matches[k]` cards and leaves the others |
| Day04.CountsGrow | day04.rs:18-28 | every count starts at 1 and never goes down |
| Day04.CountIsFinal | day04.rs:20-28 | a card's count is final once the loop has reached it |
| Day04.CountsAreCopies | day04.rs:18-28 | a card's count is 1 plus the copies won from the cards before it |
| Day04.FinalCountsAreCopies | day04.rs:18-31 | after the loop each count is the card's number of copies as the puzzle defines it |
| Day04.SamplePoints | day04.rs:68-75 | the sample's match counts 4, 2, 2, 1, 0, 0 give 13 points |
| Day04.SampleCounts | day04.rs:68-76 | the sample's cards end with counts 1, 2, 4, 8, 14, 1 |
| Day04.SampleTotal | day04.rs:68-76 | the sample holds 30 cards in the end |
| Day04.ParseCard | day04.rs:51-56 | the text after the last `": "` splits at `" | "` into the winning numbers and your numbers |
| Day04.ParseCards | day04.rs:48-58 | one card per line, each parsed from its line |
| Day04.TotalScore | day04.rs:12-14 | the sum of the points of the cards |
| Day04.Part1 | day04.rs:12-14 | the sum of the points of the parsed cards |
| Day04.AddCopies | day04.rs:26-28 | the inner loop adds card `i`'s count to the next `m` counts and nothing else |
| Day04.SumCounts | day04.rs:31 | the sum of the counts |
| Day04.CountCards | day04.rs:17-31 | the total number of cards after all copies, at least one per card |
| Day04.Part2 | day04.rs:16-32 | the same total on the parsed cards |
| Day05.GetDestination | day05.rs:82-90 | a source no entry contains maps to itself; otherwise the first entry containing it shifts it by the entry's offset |
| Day05.GetDestinationAppend | day05.rs:82-90 | on a concatenated map the first part decides when one of its entries contains the source, the second part otherwise |
| Day05.DestinationInRange | day05.rs:82-90 | a mapped source lands inside the destination range of an entry that contains it |
| Day05.LocationAppend | day05.rs:29-34 | folding through two lists of maps is folding through the first, then the second |
| Day05.Location | day05.rs:29-34 | with no maps, or maps that contain nothing, a seed is its own location |
| Day05.Locations | day05.rs:29-34 | one location per seed, each the fold of the maps over that seed |
| Day05.Lowest | day05.rs:35-36 | none exactly for an empty list; otherwise an element no larger than any other |
| Day05.LowestLocation | day05.rs:29-36 | none exactly without seeds; otherwise the smallest location over the seeds, attained by one of them |
| Day05.RangeMin | day05.rs:64-70 | none exactly for an empty range; otherwise the smallest location over the range, attained in it |
| Day05.LowestOfRanges | day05.rs:58-79 | defined exactly when there are ranges and none is empty (the code's `unwrap`); then the smallest location over all of them, attained in one |
| Day05.LowestOfRangesCons | day05.rs:75-79 | the same minimum, carried from a first range's minimum across the rest |
| Day05.Pairs | day05.rs:42-43 | consecutive numbers grouped two by two |
| Day05.SeedRangesAsWritten | day05.rs:44 | each range starts at the pair's start and stops one before start + length - 1, as the code writes it |
| Day05.SeedRanges | day05.rs:44 | each range covers exactly start .. start + length, as the puzzle describes the pairs |
| Day05.AsWrittenWithinDescribed | day05.rs:44 | the ranges as written are inside the described ones, so their minimum is never smaller |
| Day05.AsWrittenMissesLastSeed | day05.rs:44 | pair (5, 2) with entry `0 6 1`: as written the minimum is 5, over both seeds it is 0 |
| Day05.AsWrittenPanicsOnSingleSeed | day05.rs:44 | pair (5, 1) gives an empty range as written (the code's `unwrap` panics), while the described range gives seed 5's location |
| Day05.ParseEntry | day05.rs:98-107 | a line of at least three numbers becomes the entry with destination, source start and source start + length |
| Day05.BlockLength | day05.rs:96-97 | the length of the run of non-empty lines from a position, stopped by an empty line or the end |
| Day05.ParseLines | day05.rs:98-109 | one parsed item per line of the block |
| Day05.ParseBlock | day05.rs:92-110 | every line up to the next empty line parses, the block's items come in order, and the next position is past the empty line |
| Day05.NextBlock | day05.rs:92-97 | a block's header, its entry lines and the empty line that ends them are consumed, and nothing past them |
| Day05.BlockStarts | day05.rs:24-27 | the header lines lie in order from the first remaining line on; there are none exactly when no line remains |
| Day05.BlockMap | day05.rs:92-110 | the entries of a block are what the block reader makes of the lines after its header |
| Day05.Blocks | day05.rs:24-27 | one block per header line, block `i` read from the lines after the `i`-th header |
| Day05.BlocksCons | day05.rs:24-27 | the first block is read, then the blocks after it |
| Day05.ParseMaps | day05.rs:24-27 | the maps are the blocks read in order, and there are none exactly when one block's entries fail to parse; never more maps than remaining lines |
| Day05.ParseMapsByBlock | day05.rs:24-27 | the maps are read exactly when every block parses, and then map `i` holds the entries under the `i`-th header line |
| Day05.ParseAlmanac | day05.rs:17-27 | none exactly for no lines, a seed word that is not a number or a map that does not parse; the seeds are the numbers after the last `": "` of the first line, and the maps are those read from the third line on |
| Day05.Part1 | day05.rs:16-37 | none exactly when the almanac does not parse or lists no seeds (the code's `unwrap`); otherwise the smallest location over the seeds, attained by one of them |
| Day05.Part2 | day05.rs:39-80 | none exactly when the almanac does not parse, the seed count is odd or zero, or a pair's length is at most 1 so its range as written is empty; otherwise the smallest location over the seed ranges as the code builds them, attained in one |
| Day05.Part2Corrected | day05.rs:39-80 | none exactly when the almanac does not parse, the seed count is odd or zero, or a pair's length is 0; otherwise the smallest location over the described seed ranges, attained in one |
| Day06.WaysBelow | day06.rs:30-33 | the winning hold times below a bound number fewer than the bound |
| Day06.CountWaysToBeatRecord | day06.rs:29-34 | at most `duration - 1` ways, and none for a race of 0 or 1 milliseconds |
| Day06.WaysBelowPositive | day06.rs:30-33 | a positive count below a bound exactly when some hold time below it beats the record |
| Day06.CountPositiveIffWinnable | day06.rs:29-34 | a positive count exactly when some hold time in `1..duration` beats the record |
| Day06.WaysBelowAntitone | day06.rs:30-33 | a higher record never allows more ways below a bound |
| Day06.CountAntitone | day06.rs:29-34 | a higher record never allows more ways |
| Day06.HoldSymmetry | day06.rs:31 | holding `t` or `duration - t` goes equally far, so one wins exactly when the other does |
| Day06.Concave | day06.rs:31 | the distance is concave in the hold time: a hold between two others goes at least as far as one of them |
| Day06.MulNonNegative | day06.rs:31 | products of naturals are non-negative |
| Day06.WinnersAreInterval | day06.rs:29-34 | the winning hold times are exactly `lo..=duration - lo` for the first winner `lo` |
| Day06.WaysBelowInterval | day06.rs:30-33 | the count below a bound is the part of that interval below it |
| Day06.CountFromFirstWinner | day06.rs:29-34 | the count is `duration + 1 - 2 * lo` |
| Day06.ProductZero | day06.rs:19 | a product is zero exactly when some factor is |
| Day06.RaceWays | day06.rs:15-18 | `zip` stops at the shorter list; each race's count from its duration and record |
| Day06.NumbersOfLine | day06.rs:45-51 | one number for each whitespace-separated word after the last `:`, each that word's decimal value |
| Day06.Part1 | day06.rs:10-20 | the product is zero exactly when some race cannot be won |
| Day06.RemoveSpaces | day06.rs:40 | `replace(' ', "")` leaves no space and never lengthens the text |
| Day06.RemoveSpacesAppend | day06.rs:40 | removing spaces works piece by piece |
| Day06.RemoveSpacesNone | day06.rs:40 | text without spaces is unchanged |
| Day06.ParseNumberRemovingSpaces | day06.rs:36-43 | when the text after the last `:` holds no space, the number is that text read as a decimal |
| Day06.Pow10 | day06.rs:41 | powers of ten are positive |
| Day06.DecimalValueConcat | day06.rs:41 | the value of two digit strings side by side is the first shifted by the second's length plus the second |
| Day06.ShiftDigit | day06.rs:41 | one more digit on the right shifts by one more power of ten |
| Day06.ConcatIsKerned | day06.rs:36-43 | the groups written side by side read as the kerned number |
| Day06.RemoveSpacesOfSpaced | day06.rs:40 | removing the spaces between groups writes them side by side |
| Day06.RemoveSpacesOnly | day06.rs:40 | a run of spaces disappears |
| Day06.KernedLine | day06.rs:36-43 | a title, a colon, and groups separated by spaces parse as the groups kerned into one number |
| Day06.SpacedHasNoColon | day06.rs:37-38 | digits and spaces hold no colon |
| Day06.LastPieceAfterTitle | day06.rs:37-39 | the last piece after a colon is what follows the only colon |
| Day06.ConcatNonEmpty | day06.rs:41 | non-empty groups side by side are non-empty |
| Day06.Part2 | day06.rs:22-27 | the number of ways is zero or less than the kerned duration |
| Day06.SampleRaces | day06.rs:54-59 | races 7, 15, 30 against 9, 40, 200 have 4, 8 and 9 ways, product 288 |
| Day06.SampleKerned | day06.rs:54-60 | the kerned race 71530 against 940200 has 71503 ways |
| Day06.SampleKernedTime | day06.rs:56 | `7 15 30` kerns to 71530 |
| Day06.SampleKernedDistance | day06.rs:57 | `9 40 200` kerns to 940200 |
| Day06.SampleTimeSpaced | day06.rs:56 | the example's time line is the title, a colon and the groups 7, 15, 30 after 6, 2 and 3 spaces |
| Day06.SampleDistanceSpaced | day06.rs:57 | the example's distance line is the title, a colon and the groups 9, 40, 200 after 2 spaces each |
| Day06.SampleKernedTimeLine | day06.rs:56 | the example's time line parses to 71530 |
| Day06.SampleKernedDistanceLine | day06.rs:57 | the example's distance line parses to 940200 |
| Day07.CardRank | day07.rs:5-21 | the cards' order: Joker lowest (rank 0), Ace highest (rank 13), fourteen ranks |
| Day07.TypeRank | day07.rs:52-61 | the hand types' order: high card lowest, five of a kind highest, seven ranks |
| Day07.CardFrom | day07.rs:24-47 | `J` reads as Joker exactly when jokers are present and as Jack exactly when they are not |
| Day07.CardChar | day07.rs:24-47 | every card is written as a card character that reads back as that card |
| Day07.CardCharOfCardFrom | day07.rs:24-47 | reading a card character and writing the card back gives the character |
| Day07.Occurrences | day07.rs:120-126 | a card occurs at most as often as there are cards, and zero times exactly when it is absent |
| Day07.CountCards | day07.rs:120-128 | the count map has exactly the hand's non-joker cards as keys, each mapped to its number of occurrences |
| Day07.HasCountIff | day07.rs:130-152 | a count `k` is among the values exactly when some non-joker card occurs `k` times |
| Day07.HandTypeIgnoringJokers | day07.rs:119-155 | five of a kind exactly when a non-joker card occurs five times; high card exactly when no non-joker card repeats |
| Day07.HandTypeOf | day07.rs:93-117 | jokers never lower the type; without jokers it is the type ignoring them; five jokers make five of a kind |
| Day07.FiveJokers | day07.rs:97-102 | a hand of five jokers has no counted card, so ignoring jokers it is a high card |
| Day07.OnlyJokers | day07.rs:95 | a hand whose joker count is its length holds nothing but jokers |
| Day07.CardRanks | day07.rs:72 | one rank per card, in the hand's order |
| Day07.KeyIgnoringJokers | day07.rs:72 | the part 1 sort key: the type's rank ignoring jokers, then the cards' ranks |
| Day07.KeyWithJokers | day07.rs:78 | the part 2 sort key: the type's rank with jokers, then the cards' ranks |
| Day07.TotalWinnings | day07.rs:82-91 | with ranks 1 to n the winnings lie between the sum of the bids and n times that sum |
| Day07.BoundsStep | day07.rs:86-89 | adding a hand of rank n + 1 keeps those bounds |
| Day07.SumBidsOfSort | day07.rs:71-73 | sorting the hands keeps the sum of the bids |
| Day07.SumBidsOfInsert | day07.rs:72 | inserting a hand adds its bid |
| Day07.SumBidsCons | day07.rs:82-91 | the sum of the bids splits off the first hand |
| Day07.ParseCards | day07.rs:163-168 | each of the five cards writes back as the character it was read from |
| Day07.ParseHand | day07.rs:161-171 | the hand's cards are the line's first five characters |
| Day07.ParseHands | day07.rs:157-174 | one hand per line |
| Day07.Part1 | day07.rs:70-74 | the hands sorted by type ignoring jokers, then card by card; the winnings lie between the sum of the bids and the number of hands times that sum |
| Day07.Part2 | day07.rs:76-80 | the same with `J` as joker and the joker-aware type |
| Day08.MultipleMod | day08.rs:62-74 | a multiple of `d` leaves no remainder and divides back exactly |
| Day08.NoSmallMultiple | day08.rs:62-74 | the only multiple of `d` below `d` is zero |
| Day08.DividesFactor | day08.rs:71-74 | what divides `n` is an exact factor of it |
| Day08.DividesMultiple | day08.rs:71-74 | `d` divides every multiple of itself |
| Day08.CommonDivisorStep | day08.rs:64-66 | a divisor of `b` divides `a` exactly when it divides `a % b`, the invariant of Euclid's step |
| Day08.Gcd | day08.rs:62-69 | Euclid's result is zero exactly when both arguments are, and at most a positive second argument |
| Day08.GcdDividesBoth | day08.rs:62-69 | Euclid's result divides both arguments |
| Day08.GcdIsGreatest | day08.rs:62-69 | every common divisor divides Euclid's result |
| Day08.GreatestCommonDivisor | day08.rs:62-69 | the loop computes Euclid's gcd, `a` itself when `b` is zero, a divisor of both |
| Day08.LeastCommonMultiple | day08.rs:71-74 | `a * b / gcd(a, b)` is a common multiple of `a` and `b`, positive and at most `a * b` when both are positive |
| Day08.LcmBounds | day08.rs:73 | the quotient's bounds when both arguments are positive |
| Day08.LcmAll | day08.rs:33-34 | the reduction is none for no counts (the `unwrap` panics), a common multiple of all counts otherwise, and positive when they all are |
| Day08.DividesTransitive | day08.rs:33 | divisibility carries through the reduction |
| Day08.LcmAllFails | day08.rs:33-34 | the reduction fails exactly for no counts (the `unwrap`) or two zero counts (the division by a zero gcd); otherwise it is zero exactly when a count is |
| Day08.Step | day08.rs:51-55 | a step exists exactly when the node is in the network and the direction is `L` or `R`, and goes to the left or right neighbour |
| Day08.ArrivalIsUnique | day08.rs:43-59 | the first arrival at a node with the suffix is unique, so the count is well defined |
| Day08.WalkEndsUnique | day08.rs:37-60 | at most one outcome (arrival count, panic or fuel spent) fits a walk, so the outcome's description determines it |
| Day08.WalkFromEnds | day08.rs:43-59 | the rest of a walk from the node reached after some steps ends as the whole walk is described to end |
| Day08.Walk | day08.rs:37-60 | no instructions give 0; otherwise the outcome is the first arrival within the fuel, a panic at a step from a missing node or by a bad direction before any arrival, or the fuel spent before any arrival |
| Day08.CountStepsForNode | day08.rs:37-60 | the loop's result is the walk's outcome as described, so no instructions give 0 and otherwise the count is the first arrival, or the walk panics on a missing node or direction, or passes the fuel bound |
| Day08.NetworkOfNodes | day08.rs:81-88 | the network's nodes are exactly those named on the lines |
| Day08.NetworkOfLastLineWins | day08.rs:81-88 | a node named twice keeps the neighbours of its last line, as `collect` into a map does |
| Day08.ParseMap | day08.rs:76-91 | parsed exactly when there is a first line and every node line is long enough to slice; the instructions are the first line and the network the node lines |
| Day08.Part1 | day08.rs:13-16 | a panic for an unparsable map; otherwise the outcome of the walk from `AAA` to `ZZZ`: the first arrival, a panic on a missing node or bad direction, or the fuel spent |
| Day08.ArrivalCounts | day08.rs:29-32 | one count per start node, in order, each that walk's arrival count |
| Day08.StepsToAllEnds | day08.rs:29-34 | none exactly when some start node's walk panics or runs out of fuel, or the reduction fails; otherwise the least common multiple of the arrival counts, so there is a start node and every walk arrives at a node ending with `Z` after a count that divides it |
| Day08.Part2 | day08.rs:18-35 | none exactly when the map does not parse or the same failure happens on the parsed map; otherwise the same result there |
| Day09.Differences | day09.rs:19-23 | one value fewer, each the difference of two neighbours |
| Day09.ValueFromDifferences | day09.rs:19-23 | every value is the first plus the sum of the differences before it, so the differences lose only the first value |
| Day09.Levels | day09.rs:25-34 | the levels start at the history and end at an all-zero level, with at most one more level than readings |
| Day09.LevelsShape | day09.rs:25-34 | the levels start at the history, each one is the differences of the one above, only the last is all zero, and there are at most one more than readings |
| Day09.CanExtrapolateIffLastLevel | day09.rs:39-44 | the extrapolation avoids the `unwrap` panic exactly when the all-zero level is not empty |
| Day09.LevelsCanExtrapolate | day09.rs:39-42 | every level of an extrapolable history is extrapolable |
| Day09.NextValueExtends | day09.rs:36-45 | the history extended by the next value has the differences extended by their own next value, and an all-zero level stays all zero |
| Day09.PrevValueExtends | day09.rs:47-56 | the same for the previous value at the front |
| Day09.ConstantHistory | day09.rs:36-56 | a constant history continues with the same value both ways |
| Day09.LinearHistory | day09.rs:36-56 | an arithmetic progression continues with its next and previous terms |
| Day09.ExtrapolateNext | day09.rs:36-45 | the bottom-up loop over the levels returns the next value |
| Day09.ExtrapolatePrev | day09.rs:47-56 | the bottom-up loop with insertions at the front returns the previous value |
| Day09.ExtrapolateOneLevel | day09.rs:40-41 | one level's next value is its last plus the differences' next value, its previous value its first minus theirs |
| Day09.TotalsOfThree | day09.rs:11-17 | the totals of a three-history report are the sums of the three values |
| Day09.SampleLinear | day09.rs:71 | `0 3 6 9 12 15` continues with 18 and starts with -3 |
| Day09.SampleQuadratic | day09.rs:72 | `1 3 6 10 15 21` continues with 28 and starts with 0 |
| Day09.SampleCubicDifferences | day09.rs:73 | the differences of `10 13 16 21 30 45` continue with 23 and start with 5 |
| Day09.SampleCubic | day09.rs:73 | `10 13 16 21 30 45` continues with 68 and starts with 5 |
| Day09.SampleAnswers | day09.rs:69-77 | the example's totals are 114 and 2 |
| Day09.ParseReport | day09.rs:58-67 | one history per line, its whitespace-separated signed numbers |
| Day09.Part1 | day09.rs:11-13 | the sum of the next values of the parsed histories |
| Day09.Part2 | day09.rs:15-17 | the sum of the previous values of the parsed histories |
| Day10.AdjacentCell | day10.rs:73-93 | a cell exactly when the shifted row and column are both on the grid; it is the shifted cell, and a neighbour for the four directions |
| Day10.AdjacentCellReturns | day10.rs:73-93 | stepping back the opposite way returns to the original cell |
| Day10.AdjacentIfConnected | day10.rs:95-110 | the adjacent cell exactly when it exists and its tile is in the connecting list |
| Day10.PipeDirections | day10.rs:112-137 | each pipe opens to two different directions |
| Day10.PipeTableMatchesConnectingTiles | day10.rs:13-17 | a pipe opens toward `d` exactly when it is listed as connecting for a step in the opposite direction, so the two tables agree |
| Day10.StartConnections | day10.rs:138-148 | the start's connected cells are exactly the connected neighbours found north, south, east and west, at most four |
| Day10.OptionList | day10.rs:145-147 | the `filter_map` of one option: its value when there is one |
| Day10.PipeCells | day10.rs:114-137 | a pipe's two connected cells are different neighbours on the grid |
| Day10.ConnectedCells | day10.rs:112-151 | every connected cell is a neighbour on the grid |
| Day10.StartFrom | day10.rs:174-184 | the first `S` in row-major order from a row on, or none exactly when those rows hold no `S` |
| Day10.GetStartCell | day10.rs:174-184 | the scan returns the first `S` in row-major order |
| Day10.VisitShrinks | day10.rs:157-169 | visiting a new cell leaves fewer cells unvisited, so the loop ends |
| Day10.ExtendPath | day10.rs:158-165 | appending a new cell on the grid keeps the path free of repeats |
| Day10.FirstNew | day10.rs:160-162 | none exactly when every connected cell is on the path; otherwise the first one that is not |
| Day10.Walk | day10.rs:153-172 | a traced walk extends the path it starts from, stays on the grid and repeats no cell |
| Day10.GetLoopPath | day10.rs:153-172 | the loop returns the path traced from the start |
| Day10.LoopPath | day10.rs:153-172 | the traced path starts at the start cell, stays on the grid and repeats no cell |
| Day10.WalkFirstStep | day10.rs:158-165 | the walk's first step goes to the first connected cell not yet visited, or the walk ends when there is none |
| Day10.WalkAdvances | day10.rs:158-165 | a walk longer than its path takes one step to a longer path with the same walk and fewer unvisited cells |
| Day10.WalkSteps | day10.rs:157-169 | every step of the walk follows that rule |
| Day10.LoopPathSteps | day10.rs:153-172 | every step of the loop path from the start follows that rule |
| Day10.Part1 | day10.rs:26-29 | half the length of the loop path |
| Day10.DoesCellAboveConnect | day10.rs:66-71 | exactly when the tile opens north and the cell above is on the grid and opens south |
| Day10.InsideAndLoopFitRow | day10.rs:46-60 | a cell is counted inside or is on the loop, never both |
| Day10.InsideCountBound | day10.rs:41-63 | the inside cells are at most the cells of the rows scanned |
| Day10.CountInsideInRow | day10.rs:44-60 | one row's scan counts the cells off the loop with an odd number of crossing walls to their left |
| Day10.CountInside | day10.rs:41-63 | the scan over all rows counts the inside cells, at most the grid's size |
| Day10.Part2 | day10.rs:31-64 | the inside cells of the loop on the parsed grid |
| Day10.ParseGrid | day10.rs:190-192 | one row per line |
| Day11.CountInRange | day11.rs:43-51 | the number of empty lines inside `lo..hi` is at most the number of empty lines |
| Day11.StretchAdd | day11.rs:53-54 | the extra rows of two groups of crossings add up |
| Day11.CountInRangeSplit | day11.rs:43-51 | counting crossings in `lo..hi` is counting in `lo..mid` and in `mid..hi` |
| Day11.AxisDistance | day11.rs:31-54 | along one axis, the distance with crossings counted equals the distance between the two lines' positions in the expanded image |
| Day11.DistanceInExpandedImage | day11.rs:24-56 | the computed distance is the Manhattan distance between the two cells' positions in the expanded image |
| Day11.Distance | day11.rs:24-56 | the distance with expansion is never shorter than the plain Manhattan distance |
| Day11.DistanceSymmetric | day11.rs:24-56 | the distance does not depend on the order of the cells, and a cell is 0 from itself |
| Day11.CountInRangeEmpty | day11.rs:43-51 | an empty range has no crossings |
| Day11.DistanceWithoutExpansion | day11.rs:53-55 | with factor 1 the distance is the plain Manhattan distance |
| Day11.DistanceGrowsWithFactor | day11.rs:53-55 | a larger expansion factor never gives a shorter distance |
| Day11.StretchMonotone | day11.rs:53-54 | more extra per crossing gives more extra rows |
| Day11.EmptyRowsBefore | day11.rs:95-97 | the ascending list of the rows below `k` without a galaxy, exactly those |
| Day11.EmptyColsBefore | day11.rs:99-101 | the ascending list of the columns below `k` without a galaxy, exactly those |
| Day11.GetLinesWithoutGalaxies | day11.rs:91-104 | exactly the galaxy-free rows and columns, each list ascending |
| Day11.GalaxiesInRow | day11.rs:62-66 | one row's galaxies left of column `k`, left to right, exactly those |
| Day11.GalaxiesAbove | day11.rs:61-67 | the galaxies of the first `k` rows in row-major order, exactly those |
| Day11.ScanRow | day11.rs:62-66 | the inner loop appends the row's galaxies, left to right, to the cells found so far |
| Day11.GetGalaxyCells | day11.rs:58-70 | the scan returns every galaxy cell, exactly those, in ascending row-major order |
| Day11.GalaxyPairs | day11.rs:72-89 | every pair in the set is two galaxies, the first strictly before the second |
| Day11.GalaxyPairsMembers | day11.rs:72-89 | a pair is in the set exactly when both cells are galaxies and the first comes before the second |
| Day11.PairsWithCount | day11.rs:72-89 | a later galaxy pairs with each earlier one exactly once |
| Day11.GalaxyPairsSnoc | day11.rs:72-89 | one more galaxy adds its pairs with the earlier ones, none of them already there |
| Day11.GalaxyPairsCount | day11.rs:72-89 | `n` galaxies give `n * (n - 1) / 2` pairs: the ordering and the set remove each duplicate and self-pair |
| Day11.HalfProductStep | day11.rs:72-89 | the pair count grows by `n` from `n` to `n + 1` galaxies |
| Day11.SumWithoutExpansion | day11.rs:110-126 | with factor 1 the sum is that of the Manhattan distances of all pairs |
| Day11.SumPathLengths | day11.rs:110-126 | the sum of the pair distances is never negative |
| Day11.SumGrowsWithFactor | day11.rs:110-126 | a larger expansion factor never gives a smaller sum |
| Day11.Part1 | day11.rs:16-18 | the sum with factor 2, at least the sum of the plain Manhattan distances |
| Day11.Part2 | day11.rs:20-22 | the sum with factor 1 000 000, at least the part 1 sum |
| Day12.Count | day12.rs:25-26 | a character occurs at most as often as the row is long |
| Day12.CountAppend | day12.rs:25-26 | counts of two concatenated rows add up |
| Day12.CountZero | day12.rs:25-26 | a count is zero exactly when the character is absent |
| Day12.Replicate | day12.rs:82 | `n` copies, `n` long |
| Day12.AppendToAll | day12.rs:87-95 | each filling with the value pushed onto its end, one per filling |
| Day12.Permutations | day12.rs:69-98 | the result lists every filling of `n` unknowns with exactly `k` damaged springs, each once, and there are `n choose k` of them |
| Day12.ExtendFillings | day12.rs:87-95 | pushing `#` onto fillings with one damaged spring fewer and `.` onto fillings of the same count gives fillings of one more unknown |
| Day12.AppendFilling | day12.rs:88 | a filling with one more value is a filling of one more unknown |
| Day12.ExtendDistinct | day12.rs:87-95 | the two pushes keep the list free of repeats |
| Day12.AppendInjective | day12.rs:87-95 | pushing is injective |
| Day12.PermutationsComplete | day12.rs:69-98 | every filling of `n` unknowns with `k` damaged springs is in the result |
| Day12.CompleteStep | day12.rs:87-95 | the induction step of completeness: a filling is found through its shorter prefix |
| Day12.PermutationsSplit | day12.rs:85-97 | with `0 < k <= n` the result is the damaged pushes followed by the operational ones |
| Day12.AllOperational | day12.rs:81-83 | without damaged springs the only filling is all operational |
| Day12.FillingInit | day12.rs:87-95 | a filling without its last value is a filling of one unknown fewer |
| Day12.ExtendMember | day12.rs:87-95 | a pushed member lands in the combined result |
| Day12.Runs | day12.rs:36-55 | no more runs than values, at least one for any value, the last run holding the last value |
| Day12.RunsSnoc | day12.rs:36-51 | the fold takes one more value by one step |
| Day12.RunsWellFormed | day12.rs:36-55 | the runs are positive and neighbours differ; there are none exactly for no values; the last run holds the last value |
| Day12.StepWellFormed | day12.rs:40-48 | a step keeps the runs well formed and ends them with the new value |
| Day12.RunsExpand | day12.rs:36-55 | expanding the runs gives back the values |
| Day12.StepExpand | day12.rs:40-48 | a step appends its value to the expansion |
| Day12.ExpandSnoc | day12.rs:36-55 | expanding one more run appends its copies |
| Day12.ExpandLonger | day12.rs:41-42 | lengthening the last run appends one more copy |
| Day12.ExpandRuns | day12.rs:36-55 | well-formed runs are the runs of their own expansion, so the encoding is unique |
| Day12.ExpandAppend | day12.rs:36-55 | appending `n` copies of a value unlike the last run's adds one run of length `n` |
| Day12.ExpandAppendFirst | day12.rs:43-47 | the first copy starts a new run |
| Day12.ExpandAppendStep | day12.rs:41-42 | each further copy lengthens it |
| Day12.StepNew | day12.rs:43-47 | a value unlike the last run's starts a run of one |
| Day12.ReplicateSnoc | day12.rs:41-42 | `n + 1` copies are `n` copies and one more |
| Day12.StepLonger | day12.rs:41-42 | a value equal to the last run's lengthens it by one |
| Day12.CreateArrangement | day12.rs:57-67 | the arrangement is as long as the row |
| Day12.CreateArrangementKeeps | day12.rs:62-65 | known springs are kept |
| Day12.CreateArrangementFills | day12.rs:62-65 | the unknown at each position gets the filling's value at the number of unknowns before it |
| Day12.FillsAt | day12.rs:62-65 | the same at one position |
| Day12.UnknownsBefore | day12.rs:62-65 | the unknowns before a position, counted from the first position on |
| Day12.SumAppend | day12.rs:27 | sums of concatenated lists add up |
| Day12.DamagedGroupsSum | day12.rs:100-108 | the damaged groups of a row add up to its number of damaged springs |
| Day12.CountReplicate | day12.rs:100-108 | `n` copies of `x` hold `n` of `x` and nothing else |
| Day12.IsArrangementValid | day12.rs:100-108 | a valid arrangement has as many damaged springs as the sizes add up to |
| Day12.CountValid | day12.rs:30-33 | at most as many valid arrangements as fillings |
| Day12.FillingLengths | day12.rs:69-98 | every filling is as long as the number of unknowns |
| Day12.PossibleArrangements | day12.rs:23-34 | the count is at most `unknowns choose missing damaged springs` |
| Day12.ArrangementDamaged | day12.rs:57-67 | the damaged springs of an arrangement are the row's known damaged springs plus the filling's |
| Day12.OtherCountsInvalid | day12.rs:27-29 | a filling whose damaged springs do not make up the sizes' total never gives a valid arrangement, so trying only the fillings with the missing number loses none |
| Day12.ValidAmongSnoc | day12.rs:30-33 | the valid fillings of a list are those of all but its last element plus the last if valid |
| Day12.CountValidIsSize | day12.rs:30-33 | counting the valid fillings of a list without repeats counts the set of them |
| Day12.PermutationsMember | day12.rs:69-98 | a filling is listed exactly when it has `n` values, each `#` or `.`, `k` of them `#` |
| Day12.FillingOfValid | day12.rs:27-33 | a filling of the unknowns with `#` and `.` that gives a valid arrangement has exactly the missing number of damaged springs |
| Day12.ValidAmongMember | day12.rs:30-33 | membership in the valid fillings of a list |
| Day12.ValidFillingsMember | day12.rs:23-34 | a filling is counted exactly when it replaces every unknown by `#` or `.` and the arrangement's damaged groups are the sizes |
| Day12.ValidFillingsSound | day12.rs:23-34 | every counted filling fills every unknown with `#` or `.` and gives a valid arrangement |
| Day12.ValidFillingsComplete | day12.rs:23-34 | every filling of the unknowns with `#` and `.` giving a valid arrangement is counted |
| Day12.PossibleArrangementsCountsValid | day12.rs:23-34 | the count is the number of ways of replacing each unknown by `#` or `.` so that the damaged groups are exactly the sizes, whatever their number of damaged springs |
| Day12.PossibleArrangementsIsSize | day12.rs:23-34 | the count is the size of the set of valid fillings |
| Day12.PossibleArrangementsUnfold | day12.rs:26-33 | the count counts the valid fillings among those with the missing number of damaged springs |
| Day12.ParseRecord | day12.rs:110-120 | parsed exactly when the line has a space and every comma-separated piece after it is a number |
| Day12.ParsedRecordSplitsLine | day12.rs:111-118 | the springs of a parsed record are the text before the first space, and there is one size per comma-separated piece |
| Day12.SplitOnceAtSpace | day12.rs:111-112 | a line is split at its first space into the springs before it and the text after it |
| Day12.SizesTextRoundTrip | day12.rs:114-117 | sizes written in decimal and joined by commas split back into pieces that read as those sizes |
| Day12.ParseRecordOfText | day12.rs:110-120 | a row written as springs, a space and comma-separated sizes parses back to that row and those sizes |
| Day12.LineArrangements | day12.rs:23-34 | defined exactly when the line parses and the subtraction does not underflow |
| Day12.LineArrangementsCountsValid | day12.rs:23-34 | a usable line's count is the number of valid fillings of its row for its sizes |
| Day12.LineCounts | day12.rs:15 | one count per line, each the line's number of arrangements |
| Day12.TotalArrangements | day12.rs:15 | defined exactly when every line is; then the sum of the lines' counts |
| Day12.Part1 | day12.rs:14-16 | defined exactly when every line of the input is a usable record; then the sum of the lines' counts |
| Day13.Reverse | day13.rs:27 | the same length, read from the other end |
| Day13.ZipMismatches | day13.rs:28 | the mismatches of the zipped halves are at most the shorter half's length |
| Day13.ZipMismatchesZero | day13.rs:28 | no mismatch exactly when the halves agree wherever both have a value |
| Day13.RowDiffs | day13.rs:24-29 | a row's mismatches number at most the cells on either side of the line |
| Day13.RowDiffsZero | day13.rs:24-29 | a row has no difference at `index` exactly when it is mirrored there: each value left of the line equals its mirror image on the right, as far as the shorter side reaches |
| Day13.CountReflectionDiffs | day13.rs:21-31 | the pattern's mismatches number at most `index` per row |
| Day13.ReflectionDiffsZero | day13.rs:21-31 | the pattern has no difference at `index` exactly when every row is mirrored there |
| Day13.FindFrom | day13.rs:35 | the first index from `i` on below the width with exactly the allowed differences, or none |
| Day13.FindReflectionIndex | day13.rs:33-36 | the first index in `1..width` with exactly the allowed differences; none exactly when no index has them |
| Day13.PerfectReflection | day13.rs:33-36 | with no difference allowed, every row is mirrored at the index found |
| Day13.RotatePattern | day13.rs:55-62 | the turned pattern has a row per column, a column per row, and cell `(c, r)` is the pattern's `(r, c)` |
| Day13.RotateTwice | day13.rs:55-62 | turning twice gives back the pattern |
| Day13.HorizontalReflection | day13.rs:73-79 | the turned pattern has no difference at `index` exactly when the pattern's rows are mirrored at that row index |
| Day13.MirroredColumnsMirrorRows | day13.rs:73-79 | mirrored columns of the turned pattern mean mirrored rows of the pattern |
| Day13.BlockLength | day13.rs:43-47 | the length of the run of non-empty lines at the front |
| Day13.ParsePatterns | day13.rs:38-53 | no pattern holds an empty line |
| Day13.ParseJoin | day13.rs:38-53 | patterns written with an empty line between each pair parse back to themselves |
| Day13.ParseBlockThenRest | day13.rs:42-50 | a block then an empty line parses as that block followed by the rest |
| Day13.BlockAfter | day13.rs:43-47 | a block of non-empty lines before an empty line is taken whole |
| Day13.SummaryBounds | day13.rs:68-79 | each pattern adds fewer columns than it has, and fewer rows |
| Day13.SummarizePatterns | day13.rs:64-82 | the summary is at most the columns and 100 times the rows the patterns have, less one each |
| Day13.Part1 | day13.rs:13-15 | columns left of the lines found with no difference, plus 100 times the rows above |
| Day13.Part2 | day13.rs:17-19 | the same with exactly one difference, the smudge |
| Day14.Column | day14.rs:104-121 | a column has one cell per row |
| Day14.EmptyRunAtEnd | day14.rs:110-113 | the `take_while` count: the cells above are empty for that many rows and the next one up is not |
| Day14.TiltLine | day14.rs:103-125 | tilting a column keeps its length |
| Day14.EmptyRunIsUnique | day14.rs:110-113 | that count is the only one with this property |
| Day14.RollUpAt | day14.rs:115-120 | a round rock lands just below the last non-empty cell above it and leaves an empty cell behind; any other cell stays where it is |
| Day14.TiltLineKeepsCells | day14.rs:103-125 | tilting keeps every cell: the column after is a permutation of the column before |
| Day14.TiltLineKeepsFixed | day14.rs:103-125 | cube rocks and other fixed cells stay in place, and nothing new appears in their place |
| Day14.TiltLineSettles | day14.rs:103-125 | after tilting no round rock has an empty cell directly above it |
| Day14.SettledTiltIsIdentity | day14.rs:103-125 | a settled column does not change when tilted |
| Day14.TiltedNorth | day14.rs:103-125 | the tilted platform keeps its shape, and a square one stays square |
| Day14.ColumnOfTilted | day14.rs:103-125 | the tilted platform's columns are the tilted columns |
| Day14.TiltedNorthConserves | day14.rs:103-125 | tilting keeps the shape, fixed cells and each column's multiset of cells |
| Day14.TiltedNorthSettles | day14.rs:103-125 | every column of the tilted platform is settled |
| Day14.TiltNorthIsIdempotent | day14.rs:103-125 | tilting twice is tilting once |
| Day14.NoRoundRocksTiltIsIdentity | day14.rs:103-125 | without round rocks nothing moves |
| Day14.NorthLoad | day14.rs:28-42 | a platform without round rocks puts no load on the north beams |
| Day14.RowLoadNoRocks | day14.rs:33-37 | a row without round rocks weighs nothing |
| Day14.RowsLoadNoRocks | day14.rs:31-38 | rows without round rocks weigh nothing together |
| Day14.RowLoadUpdate | day14.rs:28-42 | changing one cell of a row changes its load by that cell's rock weight |
| Day14.RowsLoadUpdate | day14.rs:28-42 | changing a row changes the load only through that row |
| Day14.CellUpdateLoad | day14.rs:119-120 | changing one cell changes the north load by its weight `rows - row` |
| Day14.CalculateNorthSupportBeamLoad | day14.rs:28-42 | the double loop adds `rows - row` for every round rock: the north load |
| Day14.Partial | day14.rs:104-121 | the state of a column part-way through the loop keeps its length |
| Day14.PartialFirstRow | day14.rs:104 | before row 1 nothing has moved |
| Day14.PartialAt | day14.rs:104-121 | after row `k - 1`, the first `k` cells of a column are tilted and the rest untouched |
| Day14.PartialStep | day14.rs:106-120 | settling row `k` rolls its cell up onto the tilted part above |
| Day14.ColumnAbove | day14.rs:110-113 | the cells above a row in a column |
| Day14.RollRockUp | day14.rs:110-120 | moving a rock changes only its column up to its row, rolls it up, and never lowers the north load |
| Day14.SettleCell | day14.rs:105-121 | one cell settled: its column matches the partial tilt and nothing else changes |
| Day14.SettleRow | day14.rs:104-121 | one row settled: every column matches the partial tilt through that row |
| Day14.TiltNorth | day14.rs:103-125 | the in-place loop produces the tilted platform and never lowers the north load |
| Day14.SettleRows | day14.rs:104-122 | after all rows every column matches the full partial tilt |
| Day14.AllPartialIsTilted | day14.rs:103-125 | the full partial tilt is the tilted platform |
| Day14.RotatedClockwise | day14.rs:84-101 | turning a square platform keeps it square |
| Day14.Reversed | day14.rs:97 | a reversed row keeps its length |
| Day14.Transposed | day14.rs:88-94 | transposing a square platform keeps it square |
| Day14.SwapMirrored | day14.rs:90-92 | the swap exchanges cells `(i, j)` and `(j, i)` and nothing else |
| Day14.TransposeInPlace | day14.rs:88-94 | the in-place swaps above the diagonal give the transposed platform |
| Day14.ReverseRows | day14.rs:96-98 | every row reversed, nothing else changed |
| Day14.RotatePlatform | day14.rs:84-101 | transpose then reverse each row gives the clockwise turn |
| Day14.RotateFourTimesIsIdentity | day14.rs:84-101 | four turns give back the platform |
| Day14.TiltAndTurn | day14.rs:48-62 | each tilt-and-turn keeps the platform square |
| Day14.SpinCycle | day14.rs:48-62 | a spin cycle keeps a square platform square |
| Day14.RepeatAdd | day14.rs:47-75 | `a + b` spin cycles are `b` spin cycles after `a` |
| Day14.RepeatIsPeriodic | day14.rs:64-74 | a platform met again after `d` cycles recurs every `d` cycles |
| Day14.SkipWholePeriods | day14.rs:67-73 | when the period divides the remaining cycles, the current platform is the final one |
| Day14.RecordStep | day14.rs:67 | the cache keeps mapping each platform seen to a step at which it was seen |
| Day14.Remember | day14.rs:67-74 | the insert records the step; the loop stops exactly on a repeat whose period divides the remaining cycles, and then the current platform is the final one |
| Day14.RunSpinCycle | day14.rs:48-62 | the four tilts and turns compute one spin cycle |
| Day14.Cycle | day14.rs:44-78 | with the early exit the result is still `times` spin cycles run one after another |
| Day14.ParsePlatform | day14.rs:80-82 | one row per line |
| Day14.Part1 | day14.rs:16-20 | the north load of the tilted platform, never below the load before tilting |
| Day14.Part2 | day14.rs:22-26 | the north load after a billion spin cycles |
| Day15.HashStep | day15.rs:52-57 | one character folded in: add its code, times 17, modulo 256, always below 256 |
| Day15.HashFrom | day15.rs:51-58 | folding no characters keeps the running hash; folding any keeps it below 256 |
| Day15.Hash | day15.rs:51-58 | a hash is below 256, and the empty text hashes to 0 |
| Day15.HashFromAppend | day15.rs:51-58 | folding one more character is one more step on the fold of the prefix |
| Day15.HashProperties | day15.rs:51-58 | a hash is below 256, the empty text hashes to 0, and a longer text's hash is one step from its prefix's |
| Day15.ParseSequence | day15.rs:60-62 | at least one step, none holding a comma, and joined with commas they give back the trimmed input |
| Day15.SumOfHashes | day15.rs:12 | the sum of the step hashes is at most 255 per step |
| Day15.Part1 | day15.rs:11-13 | at most 255 per step of the input |
| Day15.HashRnEq1 | day15.rs:76-77 | `rn=1` hashes to 30 |
| Day15.HashCmDash | day15.rs:76-77 | `cm-` hashes to 253 |
| Day15.HashQpEq3 | day15.rs:76-77 | `qp=3` hashes to 97 |
| Day15.HashCmEq2 | day15.rs:76-77 | `cm=2` hashes to 47 |
| Day15.HashQpDash | day15.rs:76-77 | `qp-` hashes to 14 |
| Day15.HashPcEq4 | day15.rs:76-77 | `pc=4` hashes to 180 |
| Day15.HashOtEq9 | day15.rs:76-77 | `ot=9` hashes to 9 |
| Day15.HashAbEq5 | day15.rs:76-77 | `ab=5` hashes to 197 |
| Day15.HashPcDash | day15.rs:76-77 | `pc-` hashes to 48 |
| Day15.HashPcEq6 | day15.rs:76-77 | `pc=6` hashes to 214 |
| Day15.HashOtEq7 | day15.rs:76-77 | `ot=7` hashes to 231 |
| Day15.SampleHashes | day15.rs:74-77 | the example's eleven step hashes add up to 1320 |
| Day15.ParseStep | day15.rs:64-72 | a focal length exactly when the step has an `=`; the name never holds an `=` |
| Day15.ParseAssignStep | day15.rs:65-67 | `name=N` parses back to the name and `N` |
| Day15.ParseRemoveStep | day15.rs:68-70 | `name-` parses back to the name and no focal length |
| Day15.SlotOf | day15.rs:24 | the first slot holding a lens with the name, or none exactly when no lens has it |
| Day15.Without | day15.rs:30 | the `retain`: only lenses of the box, none with the name |
| Day15.WithoutAbsent | day15.rs:30 | removing a name not in the box changes nothing |
| Day15.WithoutOnce | day15.rs:30 | removing a name held once drops exactly that slot and keeps the order of the rest |
| Day15.UpdateBox | day15.rs:23-31 | the box afterwards holds only its old lenses and the named one |
| Day15.ApplyStep | day15.rs:19-31 | the step opens the box its name hashes to and changes no other box |
| Day15.UpdateBoxAssign | day15.rs:23-28 | `=` replaces the named lens in its slot, or appends it when absent, and names stay distinct |
| Day15.UpdateBoxRemove | day15.rs:29-31 | `-` drops the named lens, or changes nothing when absent, and names stay distinct |
| Day15.ApplyStepWellFormed | day15.rs:18-32 | a step keeps names distinct in every box and every lens in the box its name hashes to |
| Day15.WithoutIsSubsequence | day15.rs:30 | removing keeps the names distinct |
| Day15.ApplySteps | day15.rs:18-32 | any sequence of steps keeps the boxes well formed |
| Day15.ArrangeLenses | day15.rs:16-32 | the `for_each` computes the boxes after all steps, which are well formed |
| Day15.BoxFocusingPower | day15.rs:41-45 | the inner loop adds `(1 + box) * slot * focal` over the box's lenses in slot order |
| Day15.FocusingPower | day15.rs:37-49 | the loop over the boxes, in any order, gives the total focusing power |
| Day15.Part2 | day15.rs:15-35 | the total focusing power after all steps of the input |
| Day16.NextDirections | day16.rs:50-66 | one or two directions: a splitter met side-on splits in two, met end-on passes, and an empty cell passes straight |
| Day16.MirrorIsInvolution | day16.rs:56-63 | a mirror turns the beam to another direction, and turns that direction back to the original |
| Day16.MirrorsTurnOppositeWays | day16.rs:56-63 | `/` and `\` turn every beam in opposite directions |
| Day16.Move | day16.rs:83-99 | one beam exactly when the next cell is on the grid, heading that way into that cell |
| Day16.Moves | day16.rs:82-101 | at most one beam per direction, all on the grid |
| Day16.Successors | day16.rs:78-101 | a beam has at most two successors, all on the grid |
| Day16.InAllBeams | day16.rs:76 | every beam on the grid is one of the finitely many beams the visited set can hold |
| Day16.Explore | day16.rs:72-102 | exploring only adds beams to the visited set |
| Day16.ExploreAppend | day16.rs:82-101 | exploring two lists of beams is exploring the first, then the second from there |
| Day16.ExploreCovers | day16.rs:72-102 | every starting beam is visited, and every newly visited beam has all its successors visited |
| Day16.ExploreIsLeast | day16.rs:72-102 | the visited set lies within any closed set that holds the starting beams and what was seen before |
| Day16.TraverseGrid | day16.rs:72-102 | the recursive traversal returns the visited set explored from its beam |
| Day16.FollowDirections | day16.rs:82-101 | the loop over the next directions explores the beams they lead to in order |
| Day16.MovesStep | day16.rs:82-101 | one more direction adds its beam, or nothing when it leaves the grid |
| Day16.RowCellsCount | day16.rs:46-47 | a row has `cols` cells |
| Day16.CellsBelowCount | day16.rs:46-47 | the grid has `rows * cols` cells |
| Day16.SubsetSize | day16.rs:46-47 | a subset has no more elements than the set |
| Day16.Energized | day16.rs:43-48 | the beams followed from the start include the start itself |
| Day16.EnergizedIsReach | day16.rs:43-48 | the energized beams hold the start, are closed under the beam rules, and lie within every closed set holding the start: exactly the reachable beams |
| Day16.CountEnergizedTiles | day16.rs:43-48 | the count is the number of distinct cells of the reachable beams, at least 1 and at most the grid's size |
| Day16.Part1 | day16.rs:21-24 | the energized cells of a beam entering the top-left corner heading east |
| Day16.EdgeEntries | day16.rs:31-35 | `2 * cols + 2 * rows` entries, all on the grid: north from the bottom row, south from the top, east from the first column, west from the last |
| Day16.BestEntry | day16.rs:36-40 | the largest count over the entries, attained by one of them |
| Day16.Part2 | day16.rs:26-41 | the largest energized count over every edge entry, attained by one of them |
| Wrappers.CollectAll | day05.rs:95-108 | collecting per-line options yields all values, in order, exactly when every line parsed |
| Extrema.Max | day16.rs:37-40 | `max().unwrap()` of a non-empty list: an element of the list no smaller than any other |
| Extrema.Min | day05.rs:30-36 | `min().unwrap()` of a non-empty list: an element of the list no larger than any other |
| Sorting.LexLeTotal | day07.rs:72 | tuple keys compared lexicographically are always comparable |
| Sorting.LexLeTransitive | day07.rs:72 | the lexicographic order on keys is transitive |
| Sorting.InsertBy | day07.rs:72 | inserting into a key-sorted list keeps it sorted and adds exactly the one element |
| Sorting.SortBy | day07.rs:72 | `sort_by_key`: the result is sorted by key and a permutation of the input |
| Sums.SetSumMonotone | day11.rs:110-126 | a sum over a set of terms each no larger than another's is no larger |
| Sums.SeqSumSnoc | day01.rs:22-33 | `sum()` of one more element adds that element |
| Sums.SeqSumAtLeast | day01.rs:22-33 | a sum of values each at least `lo` is at least `lo` times their number |
| Sums.SeqSumAtMost | day01.rs:22-33 | a sum of values each at most `hi` is at most `hi` times their number |
| Text.DigitValue | day01.rs:53 | `to_digit(10)` of a digit is below ten |
| Text.NatToDecimal | day01.rs:29-31 | `to_string` of a number: decimal digits without a leading zero |
| Text.DecimalRoundTrip | day01.rs:29-31 | parsing a number's decimal text gives the number back |
| Text.Split | day12.rs:114-117 | `split(c)`: at least one piece, none containing the separator |
| Text.SplitThenJoin | day12.rs:114-117 | the pieces of a split joined with the separator give back the text |
| Text.JoinThenSplit | day12.rs:114-117 | splitting pieces joined with a separator none of them contains gives the pieces back |
| Text.Find | day10.rs:162 | the first position of a character, and none exactly when it does not occur |
| Text.SplitOnce | day12.rs:111 | `split_once(c)`: the text is the part before, the separator, the part after, and the first part has no separator; none exactly when the separator is absent |
| Text.TrimEndMatches | day15.rs:69 | `trim_end_matches(c)`: a prefix of the text, not ending in `c`, and only `c` removed |
| Text.Lines | day03.rs:16 | `lines()`: no line contains a line feed |
| Text.LinesOfUnlines | day03.rs:16 | the lines of text written one per line come back unchanged |
| Text.Words | day04.rs:60-64 | `split_whitespace` gives no more words than the text has characters |
| Text.WordsOfUnwords | day04.rs:60-64 | `split_whitespace` of words joined by spaces gives the words back |
| Text.ParseNumbers | day04.rs:60-64 | one number per whitespace-separated word, each its decimal value |
| Text.IntegerRoundTrip | day09.rs:62-64 | a signed integer's text parses back to the integer |
| Text.ParseIntegers | day09.rs:62-64 | one signed integer per whitespace-separated word |
| Text.FindFrom | day01.rs:62 | `find(word)`: the first occurrence at or after a position, none exactly when there is none |
| Text.RFind | day01.rs:84 | `rfind(word)`: the last occurrence, none exactly when there is none |
| Text.SplitStr | day02.rs:63 | `split("; ")`: at least one piece, no piece contains the separator |
| Text.SplitStrThenJoin | day02.rs:63 | the pieces joined with the separator give back the text |
| Text.SplitOnceStr | day02.rs:59 | `split_once(": ")`: text before, separator, text after, and the first part has no occurrence; none exactly when the separator does not occur |
| Text.LastPiece | day06.rs:37-39 | `split(sep).last()`: a piece free of the separator, the whole text when it does not occur |

## Left out

- Every `main`: reading standard input and printing the answers. Each part takes the input text as a parameter.
- Day05 part 2 runs one thread per seed range and then takes the least of their minima. The model computes the same minimum in one sequential pass; the threads change no result.
- Integer width: `usize` and `isize` are unbounded `nat` and `int`. Overflow, which panics in debug builds, is not modelled. Day 12 has one subtraction that can go below zero: the missing damaged springs. It is a precondition of `PossibleArrangements`, and `LineArrangements` gives `None` for a line that would panic there.
- Characters are ASCII `char`s, not UTF-8 bytes. Unsigned numbers parse from decimal digits only; the leading `+` that Rust's `parse::<usize>` also accepts is not modelled.
- `HashMap` and `HashSet` iteration order is unspecified. Sums and minima over them are over sets. Where the order matters, it is a parameter (day 8's list of start nodes).
- Day08.CountStepsForNode: the walk that never reaches its target loops for ever in the source. The model takes a `fuel` bound and reports when it runs out.
- Day08.Part2: the least common multiple of the walk lengths is proved to be a multiple of every walk's length. It is not proved to be the first step at which all walks arrive together; the source assumes that shortcut without checking it.
- Day10.Walk: the source panics when the loop runs into a cell it cannot follow. The model returns `None` there, since which cells are reached decides it.
- Day03, Day10, Day11, Day13, Day14 and Day16 assume rectangular grids; the source indexes as if every row had the first row's width.
- Day14.Cycle: `rotate_platform` transposes in place, which only works for a square platform, so the cycle requires a square platform.
- Day12 `part_2` is unfinished in the source and returns 0 for every input; it is not modelled.
- Day11.Part1: states only a lower bound, the unexpanded sum. The value itself is `SumPathLengths` with factor 2; the samples that would fix it are not evaluated.
- Day11.Part2: states only a lower bound, the part 1 sum. The value itself is `SumPathLengths` with factor 1 000 000.
- The samples of days 3, 5, 7, 8, 10, 11, 12, 13, 14 and 16, and the part 2 sample of day 15 (145), are not evaluated.
- Day06.Part2: states only that the count is zero or below the kerned race duration. The count itself is `CountWaysToBeatRecord` of the two kerned numbers, which `CountFromFirstWinner` and `SampleKerned` describe.
- Day07.Part1: states only that the winnings lie between the sum of the bids and the number of hands times that sum. The winnings are the bids weighted by rank after `Sorting.SortBy`, whose contract gives order and permutation.
- Day07.Part2: the same bounds, with jokers.
- Day15.Part1: states only the bound of 255 per step. `SampleHashes` proves the sample's total of 1320.
- Sorting.SortBy: the contract states a sorted permutation but not stability. Stability of `sort_by_key` only matters for two identical hands with different bids.

## Findings

| source | as written | input that shows it | evidently intended | confidence | as-written member | corrected member |
|---|---|---|---|---|---|---|
| day05.rs:44 | a seed pair `start length` becomes the range `start..(start + length - 1)`. That is half-open, so it drops the last seed. | Seeds `5 2` and one map entry `0 6 1`: seed 6 maps to 0, but the range covers only seed 5, so the answer is 5 instead of 0. Seeds `5 1` give an empty range, and `min().unwrap()` panics. | `start..(start + length)`, every seed of the pair | not executed | Day05.SeedRangesAsWritten, Day05.AsWrittenMissesLastSeed, Day05.AsWrittenPanicsOnSingleSeed, Day05.Part2 | Day05.SeedRanges, Day05.Part2Corrected |
