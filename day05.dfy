/**
 * Day 5: the almanac. Each map is a list of entries sending a source range
 * to a destination range of the same length; a seed's location is what is
 * left after passing it through every map in order. Part 1 takes the lowest
 * location of the listed seeds, part 2 of the seeds in the listed ranges.
 */
module Day05 {
  import opened Wrappers
  import opened Text
  import opened Extrema

  /** One map line: the source range `start..end` and the start of its
      destination range. */
  datatype Entry = Entry(start: nat, end: nat, dest: nat)

  type Map = seq<Entry>

  predicate Contains(e: Entry, source: nat) {
    e.start <= source < e.end
  }

  /** `get_destination`: the first entry whose source range holds `source`
      decides; a source no entry holds is its own destination. */
  function GetDestination(m: Map, source: nat): (dest: nat)
    ensures (forall k :: 0 <= k < |m| ==> !Contains(m[k], source)) ==> dest == source
    ensures forall k :: 0 <= k < |m| && Contains(m[k], source) &&
                        (forall j :: 0 <= j < k ==> !Contains(m[j], source)) ==>
                        dest == m[k].dest + (source - m[k].start)
  {
    if |m| == 0 then source
    else if Contains(m[0], source) then m[0].dest + (source - m[0].start)
    else
      assert forall k :: 1 <= k < |m| ==> m[k] == m[1..][k - 1];
      GetDestination(m[1..], source)
  }

  /** An entry ahead of a map overrides it on its own source range, and
      leaves every other source to it. */
  lemma {:induction false} GetDestinationAppend(m1: Map, m2: Map, source: nat)
    ensures (exists k :: 0 <= k < |m1| && Contains(m1[k], source)) ==>
              GetDestination(m1 + m2, source) == GetDestination(m1, source)
    ensures (forall k :: 0 <= k < |m1| ==> !Contains(m1[k], source)) ==>
              GetDestination(m1 + m2, source) == GetDestination(m2, source)
  {
    if |m1| > 0 && !Contains(m1[0], source) {
      assert (m1 + m2)[1..] == m1[1..] + m2;
      GetDestinationAppend(m1[1..], m2, source);
      if exists k :: 0 <= k < |m1| && Contains(m1[k], source) {
        var k :| 0 <= k < |m1| && Contains(m1[k], source);
        assert m1[1..][k - 1] == m1[k];
      }
    } else if |m1| == 0 {
      assert m1 + m2 == m2;
    }
  }

  /** A source some entry holds lands in the destination range of the
      entry that decides it. */
  lemma {:induction false} DestinationInRange(m: Map, source: nat)
    requires exists k :: 0 <= k < |m| && Contains(m[k], source)
    ensures exists k :: 0 <= k < |m| && Contains(m[k], source) &&
              m[k].dest <= GetDestination(m, source) < m[k].dest + (m[k].end - m[k].start)
  {
    if !Contains(m[0], source) {
      var k :| 0 <= k < |m| && Contains(m[k], source);
      assert m[1..][k - 1] == m[k];
      DestinationInRange(m[1..], source);
      var j :| 0 <= j < |m[1..]| && Contains(m[1..][j], source) &&
        m[1..][j].dest <= GetDestination(m[1..], source) < m[1..][j].dest + (m[1..][j].end - m[1..][j].start);
      assert m[j + 1] == m[1..][j];
    }
  }

  /** The fold in `part_1`: the seed passed through every map in order.
      Maps without entries, or no maps at all, leave every seed where it is. */
  function Location(maps: seq<Map>, seed: nat): (location: nat)
    ensures (forall k :: 0 <= k < |maps| ==> |maps[k]| == 0) ==> location == seed
  {
    if |maps| == 0 then seed else Location(maps[1..], GetDestination(maps[0], seed))
  }

  /** Passing through two lists of maps is passing through their
      concatenation. */
  lemma {:induction false} LocationAppend(maps1: seq<Map>, maps2: seq<Map>, seed: nat)
    ensures Location(maps1 + maps2, seed) == Location(maps2, Location(maps1, seed))
  {
    if |maps1| == 0 {
      assert maps1 + maps2 == maps2;
    } else {
      assert (maps1 + maps2)[1..] == maps1[1..] + maps2;
      LocationAppend(maps1[1..], maps2, GetDestination(maps1[0], seed));
    }
  }

  /** Every seed's location, in seed order. */
  function Locations(maps: seq<Map>, seeds: seq<nat>): (locations: seq<nat>)
    ensures |locations| == |seeds|
    ensures forall k :: 0 <= k < |seeds| ==> locations[k] == Location(maps, seeds[k])
  {
    seq(|seeds|, k requires 0 <= k < |seeds| => Location(maps, seeds[k]))
  }

  /** The least of some values, if there is one. */
  function Lowest(values: seq<nat>): (r: Option<nat>)
    ensures r.None? <==> |values| == 0
    ensures r.Some? ==> r.value in values
    ensures r.Some? ==> forall k :: 0 <= k < |values| ==> r.value <= values[k]
  {
    if |values| == 0 then None
    else
      var lowest := Min(values);
      Some(lowest as nat)
  }

  /** The lowest location of the seeds in part 1, if there is a seed. */
  function LowestLocation(maps: seq<Map>, seeds: seq<nat>): (r: Option<nat>)
    ensures r.None? <==> |seeds| == 0
    ensures r.Some? ==> exists k :: 0 <= k < |seeds| && Location(maps, seeds[k]) == r.value
    ensures r.Some? ==> forall k :: 0 <= k < |seeds| ==> r.value <= Location(maps, seeds[k])
  {
    var locations := Locations(maps, seeds);
    var r := Lowest(locations);
    if r.Some? then
      var k :| 0 <= k < |locations| && locations[k] == r.value;
      r
    else r
  }

  /** The seeds lying in one of the ranges `lo..hi`. */
  predicate InRanges(ranges: seq<(nat, nat)>, seed: nat) {
    exists k :: 0 <= k < |ranges| && ranges[k].0 <= seed < ranges[k].1
  }

  /** The lowest location of the seeds `lo..hi`, one thread's result in
      `part_2`, with the fold of the maps passed as `location`; there is
      none for an empty range. */
  function RangeMin(location: nat -> nat, lo: nat, hi: nat): (r: Option<nat>)
    ensures r.None? <==> hi <= lo
    ensures r.Some? ==> exists s :: lo <= s < hi && location(s) == r.value
    ensures r.Some? ==> forall s :: lo <= s < hi ==> r.value <= location(s)
    decreases hi - lo
  {
    if hi <= lo then None
    else
      var here := location(lo);
      match RangeMin(location, lo + 1, hi)
        case None => Some(here)
        case Some(later) => Some(if here <= later then here else later)
  }

  /** The lowest location over all the ranges, as the joined threads of
      `part_2` give it: none when there is no range or when one range is
      empty, since that thread's `min().unwrap()` panics. */
  function LowestOfRanges(location: nat -> nat, ranges: seq<(nat, nat)>): (r: Option<nat>)
    ensures r.Some? <==> |ranges| > 0 && forall k :: 0 <= k < |ranges| ==> ranges[k].0 < ranges[k].1
    ensures r.Some? ==> exists s :: InRanges(ranges, s) && location(s) == r.value
    ensures r.Some? ==> forall s :: InRanges(ranges, s) ==> r.value <= location(s)
    decreases |ranges|, 1
  {
    if |ranges| == 0 then None
    else match RangeMin(location, ranges[0].0, ranges[0].1)
      case None => None
      case Some(first) =>
        if |ranges| == 1 then
          assert forall s :: InRanges(ranges, s) ==> ranges[0].0 <= s < ranges[0].1;
          Some(first)
        else
          LowestOfRangesCons(location, ranges, first)
  }

  /** The step of `LowestOfRanges` past the first range, whose lowest
      location is `first`. */
  function LowestOfRangesCons(location: nat -> nat, ranges: seq<(nat, nat)>, first: nat): (r: Option<nat>)
    requires |ranges| > 1 && RangeMin(location, ranges[0].0, ranges[0].1) == Some(first)
    ensures r.Some? <==> forall k :: 1 <= k < |ranges| ==> ranges[k].0 < ranges[k].1
    ensures r.Some? ==> exists s :: InRanges(ranges, s) && location(s) == r.value
    ensures r.Some? ==> forall s :: InRanges(ranges, s) ==> r.value <= location(s)
    decreases |ranges|, 0
  {
    var rest := ranges[1..];
    assert forall k :: 1 <= k < |ranges| ==> ranges[k] == rest[k - 1];
    match LowestOfRanges(location, rest)
      case None => None
      case Some(later) =>
        assert forall s :: InRanges(ranges, s) ==> (ranges[0].0 <= s < ranges[0].1 || InRanges(rest, s)) by {
          forall s | InRanges(ranges, s)
            ensures ranges[0].0 <= s < ranges[0].1 || InRanges(rest, s)
          {
            var k :| 0 <= k < |ranges| && ranges[k].0 <= s < ranges[k].1;
            if k > 0 {
              assert rest[k - 1] == ranges[k];
            }
          }
        }
        assert forall s :: InRanges(rest, s) ==> InRanges(ranges, s) by {
          forall s | InRanges(rest, s)
            ensures InRanges(ranges, s)
          {
            var k :| 0 <= k < |rest| && rest[k].0 <= s < rest[k].1;
            assert ranges[k + 1] == rest[k];
          }
        }
        assert InRanges(ranges, ranges[0].0);
        Some(if first <= later then first else later)
  }

  /** The seed pairs `(start, length)` of part 2, `chunks(2)` over an even
      count of numbers. */
  function Pairs(numbers: seq<nat>): (pairs: seq<(nat, nat)>)
    requires |numbers| % 2 == 0
    ensures |pairs| == |numbers| / 2
    ensures forall k :: 0 <= k < |pairs| ==> pairs[k] == (numbers[2 * k], numbers[2 * k + 1])
  {
    seq(|numbers| / 2, k requires 0 <= k < |numbers| / 2 => (numbers[2 * k], numbers[2 * k + 1]))
  }

  /** No pair has start and length both zero, so `chunk[0] + chunk[1] - 1`
      does not underflow. */
  predicate NoUnderflow(pairs: seq<(nat, nat)>) {
    forall k :: 0 <= k < |pairs| ==> pairs[k].0 + pairs[k].1 >= 1
  }

  /** The seed ranges as `part_2` builds them: `start..start + length - 1`,
      which leaves out the last seed of every range. */
  function SeedRangesAsWritten(pairs: seq<(nat, nat)>): (ranges: seq<(nat, nat)>)
    requires NoUnderflow(pairs)
    ensures |ranges| == |pairs|
    ensures forall k :: 0 <= k < |pairs| ==>
              ranges[k].0 == pairs[k].0 && ranges[k].1 + 1 == pairs[k].0 + pairs[k].1
  {
    seq(|pairs|, k requires 0 <= k < |pairs| => (pairs[k].0, pairs[k].0 + pairs[k].1 - 1))
  }

  /** The seed ranges the puzzle describes: `start..start + length`. */
  function SeedRanges(pairs: seq<(nat, nat)>): (ranges: seq<(nat, nat)>)
    ensures |ranges| == |pairs|
    ensures forall k :: 0 <= k < |pairs| ==>
              ranges[k].0 == pairs[k].0 && ranges[k].1 == pairs[k].0 + pairs[k].1
  {
    seq(|pairs|, k requires 0 <= k < |pairs| => (pairs[k].0, pairs[k].0 + pairs[k].1))
  }

  /** Every seed of a range as written is in the range as described, so the
      described ranges can only lower the answer. */
  lemma AsWrittenWithinDescribed(location: nat -> nat, pairs: seq<(nat, nat)>)
    requires NoUnderflow(pairs)
    requires LowestOfRanges(location, SeedRangesAsWritten(pairs)).Some?
    ensures LowestOfRanges(location, SeedRanges(pairs)).Some?
    ensures LowestOfRanges(location, SeedRanges(pairs)).value
            <= LowestOfRanges(location, SeedRangesAsWritten(pairs)).value
  {
    var written := SeedRangesAsWritten(pairs);
    var described := SeedRanges(pairs);
    var s: nat :| InRanges(written, s) && location(s) == LowestOfRanges(location, written).value;
    var k :| 0 <= k < |written| && written[k].0 <= s < written[k].1;
    assert described[k].0 <= s < described[k].1;
    assert InRanges(described, s);
  }

  /** `seeds: 5 2` and one map sending seed 6 to location 0: the ranges as
      written hold seed 5 only, missing the lowest location. */
  lemma AsWrittenMissesLastSeed()
    ensures LowestOfRanges((s: nat) => Location([[Entry(6, 7, 0)]], s), SeedRangesAsWritten([(5, 2)])) == Some(5)
    ensures LowestOfRanges((s: nat) => Location([[Entry(6, 7, 0)]], s), SeedRanges([(5, 2)])) == Some(0)
  {
    var location := (s: nat) => Location([[Entry(6, 7, 0)]], s);
    assert location(5) == 5;
    assert location(6) == 0;
    var written := SeedRangesAsWritten([(5, 2)]);
    assert written == [(5, 6)];
    assert RangeMin(location, 5, 6) == Some(5);
    var described := SeedRanges([(5, 2)]);
    assert described == [(5, 7)];
    assert RangeMin(location, 6, 7) == Some(0);
    assert RangeMin(location, 5, 7) == Some(0);
  }

  /** `seeds: 5 1`: the range as written is empty and its thread panics,
      while the described range holds seed 5. */
  lemma AsWrittenPanicsOnSingleSeed(location: nat -> nat)
    ensures LowestOfRanges(location, SeedRangesAsWritten([(5, 1)])).None?
    ensures LowestOfRanges(location, SeedRanges([(5, 1)])) == Some(location(5))
  {
    assert SeedRangesAsWritten([(5, 1)]) == [(5, 5)];
    assert SeedRanges([(5, 1)]) == [(5, 6)];
    assert RangeMin(location, 6, 6).None?;
  }

  /** One line of a map, `destination source length`; later numbers are
      ignored. There is none when the line has fewer than three numbers or
      a word that is not one, where `parse_map` panics. */
  function ParseEntry(line: string): (r: Option<Entry>)
    ensures r.Some? <==> AllNumbers(line) && |Words(line)| >= 3
    ensures r.Some? ==> r.value.dest == DecimalValue(Words(line)[0])
    ensures r.Some? ==> r.value.start == DecimalValue(Words(line)[1])
    ensures r.Some? ==> r.value.end == r.value.start + DecimalValue(Words(line)[2])
  {
    if AllNumbers(line) && |Words(line)| >= 3 then
      var numbers := ParseNumbers(line);
      Some(Entry(numbers[1], numbers[1] + numbers[2], numbers[0]))
    else None
  }

  /** The number of lines from line `from` on before an empty line or the
      end of the input. */
  function BlockLength(lines: seq<string>, from: nat): (n: nat)
    requires from <= |lines|
    ensures from + n <= |lines|
    ensures forall k :: from <= k < from + n ==> lines[k] != ""
    ensures from + n == |lines| || lines[from + n] == ""
    decreases |lines| - from
  {
    if from == |lines| || lines[from] == "" then 0 else 1 + BlockLength(lines, from + 1)
  }

  /** Lines `from..from + n` each read by `parse`. */
  function ParseLines<T>(lines: seq<string>, from: nat, n: nat, parse: string -> Option<T>): (parsed: seq<Option<T>>)
    requires from + n <= |lines|
    ensures |parsed| == n
    ensures forall k :: 0 <= k < n ==> parsed[k] == parse(lines[from + k])
  {
    seq(n, k requires 0 <= k < n => parse(lines[from + k]))
  }

  /** `take_while(|line| !line.is_empty()).map(parse).collect()` from line
      `from`: the values of the lines up to the next empty line, and the
      index of the line after that empty line, which `take_while` consumes.
      There are none when `parse` fails on one of the lines. */
  function ParseBlock<T>(lines: seq<string>, from: nat, parse: string -> Option<T>): (r: Option<(seq<T>, nat)>)
    requires from <= |lines|
    ensures r.None? ==> exists k :: from <= k < from + BlockLength(lines, from) && parse(lines[k]).None?
    ensures r.Some? ==> |r.value.0| == BlockLength(lines, from)
    ensures r.Some? ==> forall k :: 0 <= k < |r.value.0| ==> parse(lines[from + k]) == Some(r.value.0[k])
    ensures r.Some? ==> (r.value.1 == |lines| == from + |r.value.0|) ||
                        (from + |r.value.0| < |lines| && lines[from + |r.value.0|] == "" &&
                         r.value.1 == from + |r.value.0| + 1)
  {
    var n := BlockLength(lines, from);
    var parsed := ParseLines(lines, from, n, parse);
    match CollectAll(parsed)
      case None =>
        var k :| 0 <= k < n && parsed[k].None?;
        assert parse(lines[from + k]).None?;
        None
      case Some(values) =>
        Some((values, if from + n < |lines| then from + n + 1 else from + n))
  }

  /** The line after a block's header, entries and closing empty line. */
  function NextBlock(lines: seq<string>, from: nat): (next: nat)
    requires from < |lines|
    ensures from < next <= |lines|
    ensures next == |lines| || lines[next - 1] == ""
  {
    var n := BlockLength(lines, from + 1);
    if from + 1 + n < |lines| then from + 1 + n + 1 else from + 1 + n
  }

  /** The header lines of the maps from line `from` on: each block is a
      header line followed by the lines up to the next empty line, which
      it consumes. This depends on the line layout alone, not on whether
      the entries parse. */
  function BlockStarts(lines: seq<string>, from: nat): (starts: seq<nat>)
    requires from <= |lines|
    ensures forall i :: 0 <= i < |starts| ==> from <= starts[i] < |lines|
    ensures |starts| == 0 <==> from == |lines|
    ensures |starts| > 0 ==> starts[0] == from
    decreases |lines| - from
  {
    if from == |lines| then [] else [from] + BlockStarts(lines, NextBlock(lines, from))
  }

  /** The values of the block under the header at line `start`, skipping
      the header; none when one of its lines does not parse. */
  function BlockMap<T>(lines: seq<string>, start: nat, parse: string -> Option<T>): (r: Option<seq<T>>)
    requires start < |lines|
    ensures r.Some? <==> ParseBlock(lines, start + 1, parse).Some?
    ensures r.Some? ==> r.value == ParseBlock(lines, start + 1, parse).value.0
  {
    match ParseBlock(lines, start + 1, parse)
      case None => None
      case Some((m, _)) => Some(m)
  }

  /** The values of the block under the header at `start`, or none past the
      end of the input. */
  function ReadBlock<T>(lines: seq<string>, start: nat, parse: string -> Option<T>): Option<seq<T>> {
    if start < |lines| then BlockMap(lines, start, parse) else None
  }

  /** `f` applied to each of `xs`. */
  function Apply<A>(xs: seq<nat>, f: nat -> A): (r: seq<A>)
    ensures |r| == |xs|
  {
    seq(|xs|, i requires 0 <= i < |xs| => f(xs[i]))
  }

  lemma ApplyCons<A>(x: nat, xs: seq<nat>, f: nat -> A)
    ensures Apply([x] + xs, f) == [f(x)] + Apply(xs, f)
  {
  }

  /** The blocks from line `from` on, each read on its own: block `i` is the
      one under the `i`-th header line. */
  function Blocks<T>(lines: seq<string>, from: nat, parse: string -> Option<T>): (blocks: seq<Option<seq<T>>>)
    requires from <= |lines|
    ensures |blocks| == |BlockStarts(lines, from)|
    ensures forall i :: 0 <= i < |blocks| ==> blocks[i] == BlockMap(lines, BlockStarts(lines, from)[i], parse)
  {
    Apply(BlockStarts(lines, from), s => ReadBlock(lines, s, parse))
  }

  /** The first block, then those after it. */
  lemma BlocksCons<T>(lines: seq<string>, from: nat, parse: string -> Option<T>)
    requires from < |lines|
    ensures Blocks(lines, from, parse) == [BlockMap(lines, from, parse)] + Blocks(lines, NextBlock(lines, from), parse)
  {
    ApplyCons(from, BlockStarts(lines, NextBlock(lines, from)), s => ReadBlock(lines, s, parse));
  }

  /** `parse_map` repeated while lines remain: each map skips its header
      line and reads entries up to an empty line. */
  function ParseMaps(lines: seq<string>, from: nat): (r: Option<seq<Map>>)
    requires from <= |lines|
    ensures r == CollectAll(Blocks(lines, from, ParseEntry))
    ensures r.Some? ==> |r.value| <= |lines| - from
    decreases |lines| - from
  {
    if from == |lines| then Some([])
    else
      var next := NextBlock(lines, from);
      BlocksCons(lines, from, ParseEntry);
      assert Blocks(lines, from, ParseEntry)[1..] == Blocks(lines, next, ParseEntry);
      match ParseBlock(lines, from + 1, ParseEntry)
        case None => None
        case Some((m, next')) =>
          assert next' == next;
          match ParseMaps(lines, next)
            case None => None
            case Some(rest) => Some([m] + rest)
  }

  /** The maps are read exactly when every block's entries parse, and then
      map `i` holds the entries under the `i`-th header line. */
  lemma ParseMapsByBlock(lines: seq<string>, from: nat)
    requires from <= |lines|
    ensures var starts := BlockStarts(lines, from);
            ParseMaps(lines, from).Some? <==> forall i :: 0 <= i < |starts| ==> BlockMap(lines, starts[i], ParseEntry).Some?
    ensures var starts := BlockStarts(lines, from);
            ParseMaps(lines, from).Some? ==>
              |ParseMaps(lines, from).value| == |starts| &&
              forall i :: 0 <= i < |starts| ==> BlockMap(lines, starts[i], ParseEntry) == Some(ParseMaps(lines, from).value[i])
  {
  }

  datatype Almanac = Almanac(seeds: seq<nat>, maps: seq<Map>)

  /** The seeds after the last `": "` of the first line, then, past one
      skipped line, the maps. There is none for an empty input or a word
      that is not a number, where the solver panics. */
  function ParseAlmanac(input: string): (r: Option<Almanac>)
    ensures r.Some? ==> |Lines(input)| > 0
    ensures r.Some? ==> AllNumbers(LastPiece(Lines(input)[0], ": "))
    ensures r.Some? ==> r.value.seeds == ParseNumbers(LastPiece(Lines(input)[0], ": "))
    ensures var lines := Lines(input);
            var from := if |lines| >= 2 then 2 else |lines|;
            r.None? <==> |lines| == 0 || !AllNumbers(LastPiece(lines[0], ": ")) || ParseMaps(lines, from).None?
    ensures var lines := Lines(input);
            r.Some? ==> Some(r.value.maps) == ParseMaps(lines, if |lines| >= 2 then 2 else |lines|)
  {
    var lines := Lines(input);
    if |lines| == 0 then None
    else
      var seedText := LastPiece(lines[0], ": ");
      if !AllNumbers(seedText) then None
      else match ParseMaps(lines, if |lines| >= 2 then 2 else |lines|)
        case None => None
        case Some(maps) => Some(Almanac(ParseNumbers(seedText), maps))
  }

  /** `part_1`: the lowest location of the listed seeds. */
  function Part1(input: string): (r: Option<nat>)
    ensures r.None? <==> ParseAlmanac(input).None? || |ParseAlmanac(input).value.seeds| == 0
    ensures r.Some? ==> ParseAlmanac(input).Some?
    ensures r.Some? ==> var a := ParseAlmanac(input).value;
              (exists k :: 0 <= k < |a.seeds| && Location(a.maps, a.seeds[k]) == r.value) &&
              (forall k :: 0 <= k < |a.seeds| ==> r.value <= Location(a.maps, a.seeds[k]))
  {
    match ParseAlmanac(input)
      case None => None
      case Some(a) => LowestLocation(a.maps, a.seeds)
  }

  /** The seed numbers of the input, when it parses, do not underflow the
      range end `part_2` computes. */
  predicate Part2Defined(input: string) {
    ParseAlmanac(input).Some? ==>
      var seeds := ParseAlmanac(input).value.seeds;
      |seeds| % 2 == 0 ==> NoUnderflow(Pairs(seeds))
  }

  /** `part_2` as written: the lowest location over the seeds of the ranges
      `start..start + length - 1`; none for an odd count of seed numbers,
      where `chunk[1]` panics, or for an empty range. */
  function Part2(input: string): (r: Option<nat>)
    requires Part2Defined(input)
    ensures r.None? <==>
              ParseAlmanac(input).None? ||
              var seeds := ParseAlmanac(input).value.seeds;
              |seeds| % 2 != 0 || |seeds| == 0 || exists k :: 0 <= k < |seeds| / 2 && Pairs(seeds)[k].1 <= 1
    ensures r.Some? ==> ParseAlmanac(input).Some?
    ensures r.Some? ==> var a := ParseAlmanac(input).value;
              |a.seeds| % 2 == 0 && 
              var ranges := SeedRangesAsWritten(Pairs(a.seeds));
              (exists s :: InRanges(ranges, s) && Location(a.maps, s) == r.value) &&
              (forall s :: InRanges(ranges, s) ==> r.value <= Location(a.maps, s))
  {
    match ParseAlmanac(input)
      case None => None
      case Some(a) =>
        if |a.seeds| % 2 != 0 then None
        else LowestOfRanges(s => Location(a.maps, s), SeedRangesAsWritten(Pairs(a.seeds)))
  }

  /** Part 2 over the ranges `start..start + length` the puzzle describes. */
  function Part2Corrected(input: string): (r: Option<nat>)
    ensures r.None? <==>
              ParseAlmanac(input).None? ||
              var seeds := ParseAlmanac(input).value.seeds;
              |seeds| % 2 != 0 || |seeds| == 0 || exists k :: 0 <= k < |seeds| / 2 && Pairs(seeds)[k].1 == 0
    ensures r.Some? ==> ParseAlmanac(input).Some?
    ensures r.Some? ==> var a := ParseAlmanac(input).value;
              |a.seeds| % 2 == 0 &&
              var ranges := SeedRanges(Pairs(a.seeds));
              (exists s :: InRanges(ranges, s) && Location(a.maps, s) == r.value) &&
              (forall s :: InRanges(ranges, s) ==> r.value <= Location(a.maps, s))
  {
    match ParseAlmanac(input)
      case None => None
      case Some(a) =>
        if |a.seeds| % 2 != 0 then None
        else LowestOfRanges(s => Location(a.maps, s), SeedRanges(Pairs(a.seeds)))
  }
}
