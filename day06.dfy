/** Day 6: boat races. Holding the button for `hold` milliseconds of a
    `duration` millisecond race gives the boat a speed of `hold` for the
    remaining `duration - hold` milliseconds; a hold time wins when the
    distance beats the record. */
module Day06 {
  import opened Wrappers
  import opened Text

  /** The distance the boat travels when the button is held for `hold`. */
  function Distance(duration: nat, hold: nat): nat
    requires hold <= duration
  {
    (duration - hold) * hold
  }

  /** Holding for `hold` beats the record. */
  predicate Beats(duration: nat, record: nat, hold: nat)
    requires hold <= duration
  {
    Distance(duration, hold) > record
  }

  /** The number of winning hold times among `1..upTo`. */
  function WaysBelow(duration: nat, record: nat, upTo: nat): (n: nat)
    requires upTo <= duration
    ensures n == 0 || n < upTo
  {
    if upTo <= 1 then 0
    else WaysBelow(duration, record, upTo - 1) + (if Beats(duration, record, upTo - 1) then 1 else 0)
  }

  /** `count_ways_to_beat_record`: the number of hold times in
      `1..duration` whose distance beats the record; at most
      `duration - 1`, and none at all for a race of length 0 or 1. */
  function CountWaysToBeatRecord(duration: nat, record: nat): (n: nat)
    ensures n == 0 || n <= duration - 1
    ensures duration <= 1 ==> n == 0
  {
    WaysBelow(duration, record, duration)
  }

  /** Some hold time in `1..upTo` wins exactly when the count is positive. */
  lemma {:induction false} WaysBelowPositive(duration: nat, record: nat, upTo: nat)
    requires upTo <= duration
    ensures WaysBelow(duration, record, upTo) > 0 <==>
            exists hold :: 1 <= hold < upTo && Beats(duration, record, hold)
  {
    if upTo > 1 {
      WaysBelowPositive(duration, record, upTo - 1);
      if Beats(duration, record, upTo - 1) {
        assert 1 <= upTo - 1 < upTo && Beats(duration, record, upTo - 1);
      }
    }
  }

  /** The race can be won exactly when some hold time beats the record. */
  lemma CountPositiveIffWinnable(duration: nat, record: nat)
    ensures CountWaysToBeatRecord(duration, record) > 0 <==>
            exists hold :: 1 <= hold < duration && Beats(duration, record, hold)
  {
    WaysBelowPositive(duration, record, duration);
  }

  /** A higher record never lets more hold times win. */
  lemma {:induction false} WaysBelowAntitone(duration: nat, record: nat, record': nat, upTo: nat)
    requires upTo <= duration && record <= record'
    ensures WaysBelow(duration, record', upTo) <= WaysBelow(duration, record, upTo)
  {
    if upTo > 1 {
      WaysBelowAntitone(duration, record, record', upTo - 1);
    }
  }

  /** The count does not increase as the record goes up. */
  lemma CountAntitone(duration: nat, record: nat, record': nat)
    requires record <= record'
    ensures CountWaysToBeatRecord(duration, record') <= CountWaysToBeatRecord(duration, record)
  {
    WaysBelowAntitone(duration, record, record', duration);
  }

  /** Holding for `hold` and for `duration - hold` go the same distance,
      so one wins exactly when the other does. */
  lemma HoldSymmetry(duration: nat, record: nat, hold: nat)
    requires hold <= duration
    ensures Distance(duration, duration - hold) == Distance(duration, hold)
    ensures Beats(duration, record, hold) <==> Beats(duration, record, duration - hold)
  {
  }

  /** The distance is concave in the hold time: in between two hold times
      it is at least the smaller of their distances. */
  lemma Concave(duration: nat, a: nat, b: nat, c: nat)
    requires a <= b <= c <= duration
    ensures Distance(duration, b) >= Distance(duration, a) || Distance(duration, b) >= Distance(duration, c)
  {
    var t: int := duration;
    assert Distance(duration, b) - Distance(duration, a) == (b - a) * (t - a - b);
    assert Distance(duration, b) - Distance(duration, c) == (c - b) * (b + c - t);
    if a + b <= t {
      MulNonNegative(b - a, t - a - b);
    } else {
      MulNonNegative(c - b, b + c - t);
    }
  }

  lemma MulNonNegative(x: int, y: int)
    requires x >= 0 && y >= 0
    ensures x * y >= 0
  {
  }

  /** The winning hold times are an interval around the middle: when `lo`
      is the first one, they are exactly `lo..=duration - lo`. */
  lemma WinnersAreInterval(duration: nat, record: nat, lo: nat)
    requires 1 <= lo < duration && Beats(duration, record, lo)
    requires lo == 1 || !Beats(duration, record, lo - 1)
    ensures lo <= duration - lo
    ensures forall hold :: 1 <= hold < duration ==>
              (Beats(duration, record, hold) <==> lo <= hold <= duration - lo)
  {
    var hi := duration - lo;
    HoldSymmetry(duration, record, lo);
    if lo > 1 {
      // `lo - 1` goes less far than `lo`, so `lo` is at most half way.
      assert Distance(duration, lo) - Distance(duration, lo - 1) == duration - 2 * lo + 1;
    }
    forall hold | 1 <= hold < duration
      ensures Beats(duration, record, hold) <==> lo <= hold <= hi
    {
      if hold < lo {
        Concave(duration, hold, lo - 1, lo);
      } else if hold > hi {
        HoldSymmetry(duration, record, hold);
        Concave(duration, duration - hold, lo - 1, lo);
      } else {
        Concave(duration, lo, hold, hi);
      }
    }
  }

  /** Counting a known interval of winners `lo..=hi` up to `upTo`. */
  lemma {:induction false} WaysBelowInterval(duration: nat, record: nat, lo: nat, hi: nat, upTo: nat)
    requires 1 <= lo <= hi < duration && upTo <= duration
    requires forall hold :: 1 <= hold < duration ==>
               (Beats(duration, record, hold) <==> lo <= hold <= hi)
    ensures WaysBelow(duration, record, upTo) ==
              if upTo <= lo then 0 else if upTo <= hi + 1 then upTo - lo else hi - lo + 1
  {
    if upTo > 1 {
      WaysBelowInterval(duration, record, lo, hi, upTo - 1);
    }
  }

  /** With `lo` the shortest winning hold time, the count is
      `duration + 1 - 2 * lo`. */
  lemma CountFromFirstWinner(duration: nat, record: nat, lo: nat)
    requires 1 <= lo < duration && Beats(duration, record, lo)
    requires lo == 1 || !Beats(duration, record, lo - 1)
    ensures CountWaysToBeatRecord(duration, record) == duration + 1 - 2 * lo
  {
    WinnersAreInterval(duration, record, lo);
    WaysBelowInterval(duration, record, lo, duration - lo, duration);
  }

  /** `Iterator::product` over `usize`: 1 for no factors. */
  function Product(xs: seq<nat>): nat {
    if |xs| == 0 then 1 else Product(xs[..|xs| - 1]) * xs[|xs| - 1]
  }

  /** A product is zero exactly when one of its factors is. */
  lemma {:induction false} ProductZero(xs: seq<nat>)
    ensures Product(xs) == 0 <==> exists i :: 0 <= i < |xs| && xs[i] == 0
  {
    if |xs| > 0 {
      var init := xs[..|xs| - 1];
      ProductZero(init);
      if exists i :: 0 <= i < |init| && init[i] == 0 {
        var i :| 0 <= i < |init| && init[i] == 0;
        assert xs[i] == 0;
      }
      if exists i :: 0 <= i < |xs| && xs[i] == 0 {
        var i :| 0 <= i < |xs| && xs[i] == 0;
        if i < |init| {
          assert init[i] == 0;
        }
      }
    }
  }

  /** The ways to win each race, pairing durations with records as `zip`
      does: up to the shorter of the two lists. */
  function RaceWays(durations: seq<nat>, records: seq<nat>): (ways: seq<nat>)
    ensures |ways| == if |durations| <= |records| then |durations| else |records|
    ensures forall i :: 0 <= i < |ways| ==> ways[i] == CountWaysToBeatRecord(durations[i], records[i])
  {
    var n := if |durations| <= |records| then |durations| else |records|;
    seq(n, i requires 0 <= i < n => CountWaysToBeatRecord(durations[i], records[i]))
  }

  /** The numbers of a line, after its label. */
  predicate WellFormedNumbersLine(line: string) {
    AllNumbers(LastPiece(line, ":"))
  }

  /** `parse_numbers`: the numbers after the last `:`, one for each
      whitespace-separated word there. */
  function NumbersOfLine(line: string): (numbers: seq<nat>)
    requires WellFormedNumbersLine(line)
    ensures |numbers| == |Words(LastPiece(line, ":"))|
    ensures forall i :: 0 <= i < |numbers| ==> numbers[i] == DecimalValue(Words(LastPiece(line, ":"))[i])
  {
    ParseNumbers(LastPiece(line, ":"))
  }

  /** `part_1`: the product over the races of the number of ways to win;
      zero exactly when some race cannot be won. */
  function Part1(input: string): (r: nat)
    requires |Lines(input)| >= 2
    requires WellFormedNumbersLine(Lines(input)[0]) && WellFormedNumbersLine(Lines(input)[1])
    ensures var ways := RaceWays(NumbersOfLine(Lines(input)[0]), NumbersOfLine(Lines(input)[1]));
            r == 0 <==> exists i :: 0 <= i < |ways| && ways[i] == 0
  {
    var lines := Lines(input);
    var ways := RaceWays(NumbersOfLine(lines[0]), NumbersOfLine(lines[1]));
    ProductZero(ways);
    Product(ways)
  }

  /** `.replace(' ', "")`: the text with its spaces taken out. */
  function RemoveSpaces(s: string): (t: string)
    ensures |t| <= |s|
    ensures forall i :: 0 <= i < |t| ==> t[i] != ' '
  {
    if |s| == 0 then ""
    else RemoveSpaces(s[..|s| - 1]) + (if s[|s| - 1] == ' ' then "" else [s[|s| - 1]])
  }

  /** Taking out spaces works piece by piece. */
  lemma {:induction false} RemoveSpacesAppend(a: string, b: string)
    ensures RemoveSpaces(a + b) == RemoveSpaces(a) + RemoveSpaces(b)
    decreases |b|
  {
    if |b| > 0 {
      var init := b[..|b| - 1];
      assert (a + b)[..|a + b| - 1] == a + init;
      RemoveSpacesAppend(a, init);
    } else {
      assert a + b == a;
    }
  }

  /** Text without spaces is left as it is. */
  lemma {:induction false} RemoveSpacesNone(s: string)
    requires forall i :: 0 <= i < |s| ==> s[i] != ' '
    ensures RemoveSpaces(s) == s
  {
    if |s| > 0 {
      RemoveSpacesNone(s[..|s| - 1]);
    }
  }

  /** The text after the line's last `:` is, with its spaces taken out,
      one decimal number. */
  predicate WellFormedKernedLine(line: string) {
    IsDecimal(RemoveSpaces(LastPiece(line, ":")))
  }

  /** `parse_number_removing_spaces`: the digits after the last `:`,
      with the spaces between them taken out, read as one number. */
  function ParseNumberRemovingSpaces(line: string): (n: nat)
    requires WellFormedKernedLine(line)
    ensures (forall i :: 0 <= i < |LastPiece(line, ":")| ==> LastPiece(line, ":")[i] != ' ') ==>
              IsDecimal(LastPiece(line, ":")) && n == DecimalValue(LastPiece(line, ":"))
  {
    var text := LastPiece(line, ":");
    if forall i :: 0 <= i < |text| ==> text[i] != ' ' then
      RemoveSpacesNone(text);
      DecimalValue(RemoveSpaces(text))
    else
      DecimalValue(RemoveSpaces(text))
  }

  /** `10^n`. */
  function Pow10(n: nat): (p: nat)
    ensures p >= 1
  {
    if n == 0 then 1 else 10 * Pow10(n - 1)
  }

  /** Reading digits one after the other: the digits of `a` are shifted
      left past those of `b`. */
  lemma {:induction false} DecimalValueConcat(a: string, b: string)
    requires AllDigits(a) && AllDigits(b)
    ensures AllDigits(a + b)
    ensures DecimalValue(a + b) == DecimalValue(a) * Pow10(|b|) + DecimalValue(b)
    decreases |b|
  {
    if |b| > 0 {
      var init := b[..|b| - 1];
      var c := b[|b| - 1];
      assert a + b == (a + init) + [c];
      assert b == init + [c];
      DecimalValueConcat(a, init);
      DecimalValueAppend(a + init, c);
      DecimalValueAppend(init, c);
      assert Pow10(|b|) == Pow10(|init|) * 10;
      ShiftDigit(DecimalValue(a), Pow10(|init|), DecimalValue(init), DigitValue(c));
    } else {
      assert a + b == a;
    }
  }

  /** Appending a digit to `x * p + y` shifts both parts. */
  lemma ShiftDigit(x: int, p: int, y: int, d: int)
    ensures (x * p + y) * 10 + d == x * (p * 10) + (y * 10 + d)
  {
  }

  /** The number that separately written digit groups make when the
      spaces between them are ignored: each group shifts the value so far
      left by its own length. */
  function Kerned(groups: seq<string>): nat
    requires forall i :: 0 <= i < |groups| ==> AllDigits(groups[i])
  {
    if |groups| == 0 then 0
    else
      var last := groups[|groups| - 1];
      Kerned(groups[..|groups| - 1]) * Pow10(|last|) + DecimalValue(last)
  }

  /** Groups of digits concatenated. */
  function Concat(groups: seq<string>): string {
    if |groups| == 0 then "" else Concat(groups[..|groups| - 1]) + groups[|groups| - 1]
  }

  /** The concatenated groups read as a decimal number are the kerned
      number. */
  lemma {:induction false} ConcatIsKerned(groups: seq<string>)
    requires forall i :: 0 <= i < |groups| ==> AllDigits(groups[i])
    ensures AllDigits(Concat(groups))
    ensures DecimalValue(Concat(groups)) == Kerned(groups)
  {
    if |groups| > 0 {
      var init := groups[..|groups| - 1];
      ConcatIsKerned(init);
      DecimalValueConcat(Concat(init), groups[|groups| - 1]);
    }
  }

  /** Digit groups written with spaces between them, however many. */
  function Spaced(groups: seq<string>, gaps: seq<nat>): string
    requires |gaps| == |groups|
  {
    if |groups| == 0 then ""
    else
      var n := |groups| - 1;
      Spaced(groups[..n], gaps[..n]) + seq(gaps[n], _ => ' ') + groups[n]
  }

  /** Taking the spaces out of spaced digit groups joins the groups. */
  lemma {:induction false} RemoveSpacesOfSpaced(groups: seq<string>, gaps: seq<nat>)
    requires |gaps| == |groups|
    requires forall i :: 0 <= i < |groups| ==> AllDigits(groups[i])
    ensures RemoveSpaces(Spaced(groups, gaps)) == Concat(groups)
  {
    if |groups| > 0 {
      var n := |groups| - 1;
      var spaces: string := seq(gaps[n], _ => ' ');
      RemoveSpacesOfSpaced(groups[..n], gaps[..n]);
      RemoveSpacesAppend(Spaced(groups[..n], gaps[..n]) + spaces, groups[n]);
      RemoveSpacesAppend(Spaced(groups[..n], gaps[..n]), spaces);
      RemoveSpacesOnly(gaps[n]);
      RemoveSpacesNone(groups[n]);
    }
  }

  /** A run of spaces disappears. */
  lemma {:induction false} RemoveSpacesOnly(k: nat)
    ensures RemoveSpaces(seq(k, _ => ' ')) == ""
  {
    if k > 0 {
      var spaces: string := seq(k, _ => ' ');
      assert spaces[..k - 1] == seq(k - 1, _ => ' ');
      RemoveSpacesOnly(k - 1);
    }
  }

  /** Part 2 reads the digit groups of a line as one number, whatever the
      spacing between them. */
  lemma KernedLine(title: string, groups: seq<string>, gaps: seq<nat>)
    requires |gaps| == |groups| && |groups| > 0
    requires forall i :: 0 <= i < |groups| ==> |groups[i]| > 0 && AllDigits(groups[i])
    requires forall k :: 0 <= k < |title| ==> title[k] != ':'
    ensures WellFormedKernedLine(title + ":" + Spaced(groups, gaps))
    ensures ParseNumberRemovingSpaces(title + ":" + Spaced(groups, gaps)) == Kerned(groups)
  {
    SpacedHasNoColon(groups, gaps);
    LastPieceAfterTitle(title, Spaced(groups, gaps));
    RemoveSpacesOfSpaced(groups, gaps);
    ConcatIsKerned(groups);
    ConcatNonEmpty(groups);
  }

  /** Spaced digit groups hold no `:`. */
  lemma {:induction false} SpacedHasNoColon(groups: seq<string>, gaps: seq<nat>)
    requires |gaps| == |groups|
    requires forall i :: 0 <= i < |groups| ==> AllDigits(groups[i])
    ensures forall k :: 0 <= k < |Spaced(groups, gaps)| ==> Spaced(groups, gaps)[k] != ':'
  {
    if |groups| > 0 {
      var n := |groups| - 1;
      var init := Spaced(groups[..n], gaps[..n]);
      var spaces: string := seq(gaps[n], _ => ' ');
      SpacedHasNoColon(groups[..n], gaps[..n]);
      assert AllDigits(groups[n]);
      forall k | 0 <= k < |Spaced(groups, gaps)|
        ensures Spaced(groups, gaps)[k] != ':'
      {
        if k < |init| {
          assert Spaced(groups, gaps)[k] == init[k];
        } else if k < |init| + |spaces| {
          assert Spaced(groups, gaps)[k] == spaces[k - |init|];
        } else {
          assert Spaced(groups, gaps)[k] == groups[n][k - |init| - |spaces|];
        }
      }
    }
  }

  /** `split(':').last()` of a line whose title holds no `:` and whose
      rest holds none either is that rest. */
  lemma LastPieceAfterTitle(title: string, rest: string)
    requires forall k :: 0 <= k < |title| ==> title[k] != ':'
    requires forall k :: 0 <= k < |rest| ==> rest[k] != ':'
    ensures LastPiece(title + ":" + rest, ":") == rest
  {
    var line := title + ":" + rest;
    assert line[|title|..|title| + 1] == ":";
    assert OccursAt(line, ":", |title|);
    forall j: nat | j < |title|
      ensures !OccursAt(line, ":", j)
    {
      assert line[j..j + 1][0] == title[j];
    }
    assert FindFrom(line, ":", 0) == Some(|title|);
    assert line[|title| + 1..] == rest;
    forall j: nat | j + 1 <= |rest|
      ensures !OccursAt(rest, ":", j)
    {
      assert rest[j..j + 1][0] == rest[j];
    }
    assert SplitStr(rest, ":") == [rest];
    assert SplitStr(line, ":") == [line[..|title|]] + SplitStr(rest, ":");
  }

  lemma {:induction false} ConcatNonEmpty(groups: seq<string>)
    requires |groups| > 0 && forall i :: 0 <= i < |groups| ==> |groups[i]| > 0
    ensures |Concat(groups)| > 0
  {
  }

  /** `part_2`: the one race the kerned lines describe. */
  function Part2(input: string): (r: nat)
    requires |Lines(input)| >= 2
    requires WellFormedKernedLine(Lines(input)[0]) && WellFormedKernedLine(Lines(input)[1])
    ensures r == 0 || r < ParseNumberRemovingSpaces(Lines(input)[0])
  {
    var lines := Lines(input);
    CountWaysToBeatRecord(ParseNumberRemovingSpaces(lines[0]), ParseNumberRemovingSpaces(lines[1]))
  }

  /** The sample races (7 ms, record 9), (15 ms, record 40) and
      (30 ms, record 200) can be won in 4, 8 and 9 ways: part 1 gives 288. */
  lemma SampleRaces()
    ensures RaceWays([7, 15, 30], [9, 40, 200]) == [4, 8, 9]
    ensures Product([4, 8, 9]) == 288
  {
    CountFromFirstWinner(7, 9, 2);
    CountFromFirstWinner(15, 40, 4);
    CountFromFirstWinner(30, 200, 11);
    assert [4, 8, 9][..2] == [4, 8];
    assert [4, 8][..1] == [4];
  }

  /** Kerned, the sample is one race of 71530 ms with record 940200; it
      can be won in 71503 ways. */
  lemma SampleKerned()
    ensures Kerned(["7", "15", "30"]) == 71530
    ensures Kerned(["9", "40", "200"]) == 940200
    ensures CountWaysToBeatRecord(71530, 940200) == 71503
  {
    SampleKernedTime();
    SampleKernedDistance();
    assert Distance(71530, 14) == 1001224 && Distance(71530, 13) == 929721;
    CountFromFirstWinner(71530, 940200, 14);
  }

  lemma SampleKernedTime()
    ensures Kerned(["7", "15", "30"]) == 71530
  {
    var groups := ["7", "15", "30"];
    assert DecimalValue("7") == 7 && DecimalValue("15") == 15 && DecimalValue("30") == 30;
    assert Pow10(2) == 100;
    assert groups[..2][..1] == ["7"];
    assert Kerned(groups[..2][..1]) == 7;
    assert Kerned(groups[..2]) == 715;
  }

  lemma SampleKernedDistance()
    ensures Kerned(["9", "40", "200"]) == 940200
  {
    var groups := ["9", "40", "200"];
    assert DecimalValue("9") == 9 && DecimalValue("40") == 40 && DecimalValue("200") == 200;
    assert Pow10(2) == 100 && Pow10(3) == 1000;
    assert groups[..2][..1] == ["9"];
    assert Kerned(groups[..2][..1]) == 9;
    assert Kerned(groups[..2]) == 940;
  }

  /** The sample's two lines, written as a title, a colon and spaced
      groups of digits. */
  lemma SampleTimeSpaced()
    ensures "Time" + ":" + Spaced(["7", "15", "30"], [6, 2, 3]) == "Time:      7  15   30"
  {
    var groups := ["7", "15", "30"];
    var gaps := [6, 2, 3];
    assert Spaced(groups[..1], gaps[..1]) == "      7";
    assert Spaced(groups[..2], gaps[..2]) == "      7  15";
  }

  lemma SampleDistanceSpaced()
    ensures "Distance" + ":" + Spaced(["9", "40", "200"], [2, 2, 2]) == "Distance:  9  40  200"
  {
    var groups := ["9", "40", "200"];
    var gaps := [2, 2, 2];
    assert Spaced(groups[..1], gaps[..1]) == "  9";
    assert Spaced(groups[..2], gaps[..2]) == "  9  40";
  }

  /** The sample's two lines, read as part 2 reads them. */
  lemma SampleKernedTimeLine()
    ensures WellFormedKernedLine("Time:      7  15   30")
    ensures ParseNumberRemovingSpaces("Time:      7  15   30") == 71530
  {
    KernedLine("Time", ["7", "15", "30"], [6, 2, 3]);
    SampleKernedTime();
    SampleTimeSpaced();
  }

  lemma SampleKernedDistanceLine()
    ensures WellFormedKernedLine("Distance:  9  40  200")
    ensures ParseNumberRemovingSpaces("Distance:  9  40  200") == 940200
  {
    KernedLine("Distance", ["9", "40", "200"], [2, 2, 2]);
    SampleKernedDistance();
    SampleDistanceSpaced();
  }
}
