/** Day 1: calibration values. Each line's value is its first and its last
    digit read as a two-digit number; in part 2 the digits may also be
    spelled out as words. */
module Day01 {
  import opened Wrappers
  import opened Text
  import opened Sums

  /** `NUMBERS`: the spelled digits with their values, in this order. */
  const Numbers: seq<(nat, string)> := [
    (1, "one"), (2, "two"), (3, "three"), (4, "four"), (5, "five"),
    (6, "six"), (7, "seven"), (8, "eight"), (9, "nine")
  ]

  /** The line holds a digit somewhere. */
  predicate HasDigit(chars: string) {
    exists i :: 0 <= i < |chars| && IsDigit(chars[i])
  }

  lemma DigitInTail(chars: string)
    requires HasDigit(chars) && !IsDigit(chars[0])
    ensures HasDigit(chars[1..])
  {
    var i :| 0 <= i < |chars| && IsDigit(chars[i]);
    assert chars[1..][i - 1] == chars[i];
  }

  /** `find_digit`: the value of the first digit the characters yield; it
      panics when there is none. */
  function FindDigit(chars: string): (d: nat)
    requires HasDigit(chars)
    ensures d < 10
    ensures exists i :: 0 <= i < |chars| && IsDigit(chars[i]) && d == DigitValue(chars[i]) &&
                        forall j :: 0 <= j < i ==> !IsDigit(chars[j])
  {
    if IsDigit(chars[0]) then DigitValue(chars[0])
    else
      DigitInTail(chars);
      var d := FindDigit(chars[1..]);
      FirstDigitShifts(chars, d);
      d
  }

  lemma FirstDigitShifts(chars: string, d: nat)
    requires |chars| > 0 && !IsDigit(chars[0])
    requires exists i :: 0 <= i < |chars| - 1 && IsDigit(chars[1..][i]) && d == DigitValue(chars[1..][i]) &&
                         forall j :: 0 <= j < i ==> !IsDigit(chars[1..][j])
    ensures exists i :: 0 <= i < |chars| && IsDigit(chars[i]) && d == DigitValue(chars[i]) &&
                        forall j :: 0 <= j < i ==> !IsDigit(chars[j])
  {
    var i :| 0 <= i < |chars| - 1 && IsDigit(chars[1..][i]) && d == DigitValue(chars[1..][i]) &&
             forall j :: 0 <= j < i ==> !IsDigit(chars[1..][j]);
    assert chars[i + 1] == chars[1..][i];
    forall j | 0 <= j < i + 1
      ensures !IsDigit(chars[j])
    {
      if j > 0 {
        assert chars[j] == chars[1..][j - 1];
      }
    }
  }

  /** `chars().rev()`. */
  function Reverse(s: string): (r: string)
    ensures |r| == |s|
    ensures forall i :: 0 <= i < |s| ==> r[i] == s[|s| - 1 - i]
  {
    if |s| == 0 then [] else Reverse(s[1..]) + [s[0]]
  }

  /** The first digit of the reversed line is the line's last digit. */
  lemma FindDigitReversed(line: string, q: nat)
    requires q < |line| && IsDigit(line[q])
    requires forall j :: q < j < |line| ==> !IsDigit(line[j])
    ensures HasDigit(Reverse(line))
    ensures FindDigit(Reverse(line)) == DigitValue(line[q])
  {
    var r := Reverse(line);
    var p := |line| - 1 - q;
    assert r[p] == line[q];
    forall j | 0 <= j < p
      ensures !IsDigit(r[j])
    {
      assert r[j] == line[|line| - 1 - j];
    }
    var d := FindDigit(r);
    var i :| 0 <= i < |r| && IsDigit(r[i]) && d == DigitValue(r[i]) && forall j :: 0 <= j < i ==> !IsDigit(r[j]);
    assert i == p;
  }

  /** `format!("{first}{last}").parse::<usize>()`: two digits side by
      side, read as one number. */
  function LineValue(first: nat, last: nat): (v: nat)
    requires first < 10 && last < 10
    ensures v == 10 * first + last
  {
    var s := NatToDecimal(first) + NatToDecimal(last);
    assert s == [DigitChar(first)] + [DigitChar(last)];
    DecimalValueAppend([DigitChar(first)], DigitChar(last));
    DecimalValue(s)
  }

  /** The part 1 value of a line: a two-digit number. */
  function CalibrationValue(line: string): (v: nat)
    requires HasDigit(line)
    ensures v <= 99
  {
    ReverseHasDigit(line);
    LineValue(FindDigit(line), FindDigit(Reverse(line)))
  }

  lemma ReverseHasDigit(line: string)
    requires HasDigit(line)
    ensures HasDigit(Reverse(line))
  {
    var i :| 0 <= i < |line| && IsDigit(line[i]);
    assert Reverse(line)[|line| - 1 - i] == line[i];
  }

  /** A line's part 1 value is ten times its first digit plus its last
      digit. */
  lemma CalibrationValueOfDigits(line: string, p: nat, q: nat)
    requires p < |line| && IsDigit(line[p]) && forall j :: 0 <= j < p ==> !IsDigit(line[j])
    requires q < |line| && IsDigit(line[q]) && forall j :: q < j < |line| ==> !IsDigit(line[j])
    ensures HasDigit(line)
    ensures CalibrationValue(line) == 10 * DigitValue(line[p]) + DigitValue(line[q])
  {
    FindDigitReversed(line, q);
    var d := FindDigit(line);
    var i :| 0 <= i < |line| && IsDigit(line[i]) && d == DigitValue(line[i]) && forall j :: 0 <= j < i ==> !IsDigit(line[j]);
    assert i == p;
  }

  predicate AllHaveDigits(lines: seq<string>) {
    forall i :: 0 <= i < |lines| ==> HasDigit(lines[i])
  }

  function CalibrationValues(lines: seq<string>): seq<int>
    requires AllHaveDigits(lines)
  {
    seq(|lines|, i requires 0 <= i < |lines| => CalibrationValue(lines[i]))
  }

  /** `part_1`: the sum of the part 1 values of the lines, each a
      two-digit number, so at most 99 per line. */
  function Part1(input: string): (r: nat)
    requires AllHaveDigits(Lines(input))
    ensures r <= 99 * |Lines(input)|
  {
    CalibrationValuesAtLeastZero(Lines(input));
    SeqSumAtMost(CalibrationValues(Lines(input)), 99);
    SeqSum(CalibrationValues(Lines(input)))
  }

  lemma CalibrationValuesAtLeastZero(lines: seq<string>)
    requires AllHaveDigits(lines)
    ensures SeqSum(CalibrationValues(lines)) >= 0
  {
    SeqSumAtLeast(CalibrationValues(lines), 0);
  }

  // Part 2

  /** The value of the first spelled digit among `Numbers[k..]` that
      starts at index `i`, if any. */
  function WordAt(line: string, i: nat, k: nat): (r: Option<nat>)
    requires k <= |Numbers|
    ensures r.Some? ==> 1 <= r.value <= 9
    decreases |Numbers| - k
  {
    if k == |Numbers| then None
    else if OccursAt(line, Numbers[k].1, i) then Some(Numbers[k].0)
    else WordAt(line, i, k + 1)
  }

  /** No spelled digit starts with a digit. */
  lemma WordsStartWithLetters(line: string, i: nat, k: nat)
    requires k < |Numbers| && OccursAt(line, Numbers[k].1, i)
    ensures i < |line| && !IsDigit(line[i])
  {
    assert line[i] == line[i..i + |Numbers[k].1|][0];
  }

  /** Spelled digits that do not start at `i` are skipped. */
  lemma {:induction false} WordAtSkips(line: string, i: nat, k: nat)
    requires k <= |Numbers|
    requires forall k' :: 0 <= k' < k ==> !OccursAt(line, Numbers[k'].1, i)
    ensures WordAt(line, i, 0) == WordAt(line, i, k)
  {
    if k > 0 {
      WordAtSkips(line, i, k - 1);
    }
  }

  /** No spelled digit found exactly when none starts at `i`. */
  lemma {:induction false} WordAtNone(line: string, i: nat, k: nat)
    requires k <= |Numbers|
    ensures WordAt(line, i, k).None? <==> forall k' :: k <= k' < |Numbers| ==> !OccursAt(line, Numbers[k'].1, i)
    decreases |Numbers| - k
  {
    if k < |Numbers| {
      WordAtNone(line, i, k + 1);
    }
  }

  /** The number that starts at index `i`: a digit, or else the first
      spelled digit of `Numbers` that starts there. */
  function ValueAt(line: string, i: nat): (r: Option<nat>)
    requires i < |line|
    ensures r.Some? ==> r.value < 10
  {
    if IsDigit(line[i]) then Some(DigitValue(line[i])) else WordAt(line, i, 0)
  }

  /** The value of the first number at or after index `i`, or 0. */
  function FirstNumberFrom(line: string, i: nat): (v: nat)
    ensures v < 10
    decreases |line| - i
  {
    if i >= |line| then 0
    else match ValueAt(line, i)
      case Some(v) => v
      case None => FirstNumberFrom(line, i + 1)
  }

  /** The value of the last number that starts below index `e`, or 0. */
  function LastNumberBelow(line: string, e: nat): (v: nat)
    requires e <= |line|
    ensures v < 10
  {
    if e == 0 then 0
    else match ValueAt(line, e - 1)
      case Some(v) => v
      case None => LastNumberBelow(line, e - 1)
  }

  function FirstNumber(line: string): nat {
    FirstNumberFrom(line, 0)
  }

  function LastNumber(line: string): nat {
    LastNumberBelow(line, |line|)
  }

  /** The first number of a line is the one at the earliest index where
      one starts. */
  lemma {:induction false} FirstNumberAt(line: string, i: nat, p: nat)
    requires i <= p < |line| && ValueAt(line, p).Some?
    requires forall j :: i <= j < p ==> ValueAt(line, j).None?
    ensures FirstNumberFrom(line, i) == ValueAt(line, p).value
    decreases p - i
  {
    if i < p {
      FirstNumberAt(line, i + 1, p);
    }
  }

  /** A line where no number starts has first number 0. */
  lemma {:induction false} FirstNumberNone(line: string, i: nat)
    requires forall j :: i <= j < |line| ==> ValueAt(line, j).None?
    ensures FirstNumberFrom(line, i) == 0
    decreases |line| - i
  {
    if i < |line| {
      FirstNumberNone(line, i + 1);
    }
  }

  /** The last number of a line is the one at the latest index where one
      starts. */
  lemma {:induction false} LastNumberAt(line: string, e: nat, p: nat)
    requires p < e <= |line| && ValueAt(line, p).Some?
    requires forall j :: p < j < e ==> ValueAt(line, j).None?
    ensures LastNumberBelow(line, e) == ValueAt(line, p).value
    decreases e - p
  {
    if e - 1 > p {
      LastNumberAt(line, e - 1, p);
    }
  }

  /** A line where no number starts has last number 0. */
  lemma {:induction false} LastNumberNone(line: string, e: nat)
    requires e <= |line|
    requires forall j :: 0 <= j < e ==> ValueAt(line, j).None?
    ensures LastNumberBelow(line, e) == 0
  {
    if e > 0 {
      LastNumberNone(line, e - 1);
    }
  }

  /** `line.find(char::is_numeric)`. */
  function FindDigitIndex(line: string, i: nat): (r: Option<nat>)
    ensures r.None? ==> forall j :: i <= j < |line| ==> !IsDigit(line[j])
    ensures r.Some? ==> i <= r.value < |line| && IsDigit(line[r.value])
    ensures r.Some? ==> forall j :: i <= j < r.value ==> !IsDigit(line[j])
    decreases |line| - i
  {
    if i >= |line| then None
    else if IsDigit(line[i]) then Some(i)
    else FindDigitIndex(line, i + 1)
  }

  /** `line.rfind(char::is_numeric)`: the last digit below `e`. */
  function RFindDigitIndex(line: string, e: nat): (r: Option<nat>)
    requires e <= |line|
    ensures r.None? ==> forall j :: 0 <= j < e ==> !IsDigit(line[j])
    ensures r.Some? ==> r.value < e && IsDigit(line[r.value])
    ensures r.Some? ==> forall j :: r.value < j < e ==> !IsDigit(line[j])
  {
    if e == 0 then None
    else if IsDigit(line[e - 1]) then Some(e - 1)
    else RFindDigitIndex(line, e - 1)
  }

  /** What the word loop of `find_first_number` knows after the first `k`
      spelled digits: with no index yet none of them occurs; with index
      `f` the result is the number that starts there and none of them
      occurs before it. */
  ghost predicate FirstWordsSeen(line: string, k: nat, result: nat, firstIndex: Option<nat>)
    requires k <= |Numbers|
  {
    if firstIndex.None? then
      result == 0 && forall k', i: nat :: 0 <= k' < k ==> !OccursAt(line, Numbers[k'].1, i)
    else
      var f := firstIndex.value;
      && f < |line| && !IsDigit(line[f]) && WordAt(line, f, 0) == Some(result)
      && forall k', i: nat :: 0 <= k' < k && i < f ==> !OccursAt(line, Numbers[k'].1, i)
  }

  /** One spelled digit of the word loop of `find_first_number`: it takes
      over when it occurs strictly before the current index. */
  lemma FirstWordStep(line: string, k: nat, result: nat, firstIndex: Option<nat>)
    requires k < |Numbers| && FirstWordsSeen(line, k, result, firstIndex)
    ensures var found := FindFrom(line, Numbers[k].1, 0);
      if found.Some? && (firstIndex.None? || found.value < firstIndex.value)
      then FirstWordsSeen(line, k + 1, Numbers[k].0, found)
      else FirstWordsSeen(line, k + 1, result, firstIndex)
  {
    var found := FindFrom(line, Numbers[k].1, 0);
    if found.Some? && (firstIndex.None? || found.value < firstIndex.value) {
      var index := found.value;
      WordsStartWithLetters(line, index, k);
      WordAtSkips(line, index, k);
    }
  }

  /** `find_first_number`: the earliest spelled digit, with ties going to
      the one listed first, unless a digit comes before it; 0 when the line
      holds neither. */
  method FindFirstNumber(line: string) returns (result: nat)
    ensures result == FirstNumber(line)
  {
    result := 0;
    var firstIndex: Option<nat> := None;
    for k := 0 to |Numbers|
      invariant FirstWordsSeen(line, k, result, firstIndex)
    {
      FirstWordStep(line, k, result, firstIndex);
      var (number, word) := Numbers[k];
      var found := FindFrom(line, word, 0);
      if found.Some? {
        var index := found.value;
        if firstIndex.None? || index < firstIndex.value {
          result := number;
          firstIndex := Some(index);
        }
      }
    }
    var digitIndex := FindDigitIndex(line, 0);
    NoFirstWordsBeyond(line, result, firstIndex);
    FirstNumberOfLine(line, result, firstIndex, digitIndex);
    if digitIndex.Some? {
      var index := digitIndex.value;
      if firstIndex.None? || index < firstIndex.value {
        result := DigitValue(line[index]);
      }
    }
  }

  /** After the word loop no spelled digit starts before the index found. */
  lemma NoFirstWordsBeyond(line: string, result: nat, firstIndex: Option<nat>)
    requires FirstWordsSeen(line, |Numbers|, result, firstIndex)
    ensures forall j :: 0 <= j < |line| && (firstIndex.None? || j < firstIndex.value) ==> WordAt(line, j, 0).None?
  {
    forall j | 0 <= j < |line| && (firstIndex.None? || j < firstIndex.value)
      ensures WordAt(line, j, 0).None?
    {
      WordAtNone(line, j, 0);
    }
  }

  /** After the word loop, the digit search settles the first number. */
  lemma FirstNumberOfLine(line: string, result: nat, firstIndex: Option<nat>, digitIndex: Option<nat>)
    requires firstIndex.None? ==> result == 0
    requires firstIndex.Some? ==>
               firstIndex.value < |line| && WordAt(line, firstIndex.value, 0) == Some(result) &&
               !IsDigit(line[firstIndex.value])
    requires forall j :: 0 <= j < |line| && (firstIndex.None? || j < firstIndex.value) ==> WordAt(line, j, 0).None?
    requires digitIndex == FindDigitIndex(line, 0)
    ensures if digitIndex.Some? && (firstIndex.None? || digitIndex.value < firstIndex.value)
            then FirstNumber(line) == DigitValue(line[digitIndex.value])
            else FirstNumber(line) == result
  {
    if digitIndex.Some? && (firstIndex.None? || digitIndex.value < firstIndex.value) {
      FirstNumberAt(line, 0, digitIndex.value);
    } else if firstIndex.Some? {
      FirstNumberAt(line, 0, firstIndex.value);
    } else {
      FirstNumberNone(line, 0);
    }
  }

  /** What the word loop of `find_last_number` knows after the first `k`
      spelled digits: with no index yet none of them occurs; with index
      `l` the result is the number that starts there and none of them
      occurs after it. */
  ghost predicate LastWordsSeen(line: string, k: nat, result: nat, lastIndex: Option<nat>)
    requires k <= |Numbers|
  {
    if lastIndex.None? then
      result == 0 && forall k', i: nat :: 0 <= k' < k ==> !OccursAt(line, Numbers[k'].1, i)
    else
      var l := lastIndex.value;
      && l < |line| && !IsDigit(line[l]) && WordAt(line, l, 0) == Some(result)
      && forall k', i: nat :: 0 <= k' < k && l < i ==> !OccursAt(line, Numbers[k'].1, i)
  }

  /** One spelled digit of the word loop of `find_last_number`: it takes
      over when it occurs strictly after the current index. */
  lemma LastWordStep(line: string, k: nat, result: nat, lastIndex: Option<nat>)
    requires k < |Numbers| && LastWordsSeen(line, k, result, lastIndex)
    ensures var found := RFind(line, Numbers[k].1);
      if found.Some? && (lastIndex.None? || found.value > lastIndex.value)
      then LastWordsSeen(line, k + 1, Numbers[k].0, found)
      else LastWordsSeen(line, k + 1, result, lastIndex)
  {
    var found := RFind(line, Numbers[k].1);
    if found.Some? && (lastIndex.None? || found.value > lastIndex.value) {
      var index := found.value;
      WordsStartWithLetters(line, index, k);
      WordAtSkips(line, index, k);
    }
  }

  /** `find_last_number`: the latest spelled digit, with ties going to
      the one listed first, unless a digit comes after it; 0 when the line
      holds neither. */
  method FindLastNumber(line: string) returns (result: nat)
    ensures result == LastNumber(line)
  {
    result := 0;
    var lastIndex: Option<nat> := None;
    for k := 0 to |Numbers|
      invariant LastWordsSeen(line, k, result, lastIndex)
    {
      LastWordStep(line, k, result, lastIndex);
      var (number, word) := Numbers[k];
      var found := RFind(line, word);
      if found.Some? {
        var index := found.value;
        if lastIndex.None? || index > lastIndex.value {
          result := number;
          lastIndex := Some(index);
        }
      }
    }
    var digitIndex := RFindDigitIndex(line, |line|);
    NoLastWordsBeyond(line, result, lastIndex);
    LastNumberOfLine(line, result, lastIndex, digitIndex);
    if digitIndex.Some? {
      var index := digitIndex.value;
      if lastIndex.None? || index > lastIndex.value {
        result := DigitValue(line[index]);
      }
    }
  }

  /** After the word loop no spelled digit starts after the index found. */
  lemma NoLastWordsBeyond(line: string, result: nat, lastIndex: Option<nat>)
    requires LastWordsSeen(line, |Numbers|, result, lastIndex)
    ensures forall j :: 0 <= j < |line| && (lastIndex.None? || j > lastIndex.value) ==> WordAt(line, j, 0).None?
  {
    forall j | 0 <= j < |line| && (lastIndex.None? || j > lastIndex.value)
      ensures WordAt(line, j, 0).None?
    {
      WordAtNone(line, j, 0);
    }
  }

  /** After the word loop, the digit search settles the last number. */
  lemma LastNumberOfLine(line: string, result: nat, lastIndex: Option<nat>, digitIndex: Option<nat>)
    requires lastIndex.None? ==> result == 0
    requires lastIndex.Some? ==>
               lastIndex.value < |line| && WordAt(line, lastIndex.value, 0) == Some(result) &&
               !IsDigit(line[lastIndex.value])
    requires forall j :: 0 <= j < |line| && (lastIndex.None? || j > lastIndex.value) ==> WordAt(line, j, 0).None?
    requires digitIndex == RFindDigitIndex(line, |line|)
    ensures if digitIndex.Some? && (lastIndex.None? || digitIndex.value > lastIndex.value)
            then LastNumber(line) == DigitValue(line[digitIndex.value])
            else LastNumber(line) == result
  {
    if digitIndex.Some? && (lastIndex.None? || digitIndex.value > lastIndex.value) {
      var p := digitIndex.value;
      forall j | p < j < |line|
        ensures ValueAt(line, j).None?
      {
        assert !IsDigit(line[j]) && WordAt(line, j, 0).None?;
      }
      LastNumberAt(line, |line|, p);
    } else if lastIndex.Some? {
      var p := lastIndex.value;
      forall j | p < j < |line|
        ensures ValueAt(line, j).None?
      {
        assert !IsDigit(line[j]) && WordAt(line, j, 0).None?;
      }
      LastNumberAt(line, |line|, p);
    } else {
      forall j | 0 <= j < |line|
        ensures ValueAt(line, j).None?
      {
        assert !IsDigit(line[j]) && WordAt(line, j, 0).None?;
      }
      LastNumberNone(line, |line|);
    }
  }

  /** The part 2 values of the lines. */
  function SpelledValues(lines: seq<string>): seq<int> {
    seq(|lines|, i requires 0 <= i < |lines| => LineValue(FirstNumber(lines[i]), LastNumber(lines[i])))
  }

  /** `part_2`: the sum of the part 2 values of the lines. */
  method Part2(input: string) returns (total: int)
    ensures total == SeqSum(SpelledValues(Lines(input)))
  {
    var lines := Lines(input);
    ghost var values := SpelledValues(lines);
    total := 0;
    for k := 0 to |lines|
      invariant total == SeqSum(values[..k])
    {
      SeqSumSnoc(values, k);
      var firstNumber := FindFirstNumber(lines[k]);
      var lastNumber := FindLastNumber(lines[k]);
      total := total + LineValue(firstNumber, lastNumber);
    }
    assert values[..|lines|] == values;
  }

  // The samples

  /** The four lines of the part 1 sample have values 12, 38, 15 and 77:
      part 1 gives 142. */
  lemma SampleCalibration(l0: string, l1: string, l2: string, l3: string)
    requires l0 == "1abc2" && l1 == "pqr3stu8vwx" && l2 == "a1b2c3d4e5f" && l3 == "treb7uchet"
    ensures AllHaveDigits([l0, l1, l2, l3])
    ensures SeqSum(CalibrationValues([l0, l1, l2, l3])) == 142
  {
    SampleLine(l0, 0, 4, 12);
    SampleLine(l1, 3, 7, 38);
    SampleLine(l2, 1, 9, 15);
    SampleLine(l3, 4, 4, 77);
    FourLines(l0, l1, l2, l3);
  }

  /** Four lines with digits add up their values. */
  lemma FourLines(l0: string, l1: string, l2: string, l3: string)
    requires HasDigit(l0) && HasDigit(l1) && HasDigit(l2) && HasDigit(l3)
    ensures AllHaveDigits([l0, l1, l2, l3])
    ensures SeqSum(CalibrationValues([l0, l1, l2, l3])) ==
              CalibrationValue(l0) + CalibrationValue(l1) + CalibrationValue(l2) + CalibrationValue(l3)
  {
    SumOfFour(CalibrationValues([l0, l1, l2, l3]));
  }

  /** One line of the part 1 sample, its first digit at `p` and its last
      at `q`. */
  lemma SampleLine(line: string, p: nat, q: nat, v: nat)
    requires (line, p, q, v) in {("1abc2", 0, 4, 12), ("pqr3stu8vwx", 3, 7, 38),
                                 ("a1b2c3d4e5f", 1, 9, 15), ("treb7uchet", 4, 4, 77)}
    ensures HasDigit(line) && CalibrationValue(line) == v
  {
    CalibrationValueOfDigits(line, p, q);
  }

  lemma SumOfFour(xs: seq<int>)
    requires |xs| == 4
    ensures SeqSum(xs) == xs[0] + xs[1] + xs[2] + xs[3]
  {
    assert xs[..0] == [];
    SeqSumSnoc(xs, 0);
    SeqSumSnoc(xs, 1);
    SeqSumSnoc(xs, 2);
    SeqSumSnoc(xs, 3);
    assert xs[..4] == xs;
  }

  /** The spelled digits differ in their first three letters. */
  lemma DistinctKeys(k: nat, k': nat)
    requires k < |Numbers| && k' < |Numbers| && k' < k
    ensures |Numbers[k].1| >= 3 && |Numbers[k'].1| >= 3
    ensures Numbers[k].1[0] != Numbers[k'].1[0] || Numbers[k].1[1] != Numbers[k'].1[1] ||
            Numbers[k].1[2] != Numbers[k'].1[2]
  {
    assert Numbers[0].1 == "one" && Numbers[1].1 == "two" && Numbers[2].1 == "three";
    assert Numbers[3].1 == "four" && Numbers[4].1 == "five" && Numbers[5].1 == "six";
    assert Numbers[6].1 == "seven" && Numbers[7].1 == "eight" && Numbers[8].1 == "nine";
  }

  /** A spelled digit that starts at `i` gives the number there: no other
      spelled digit can start at the same place. */
  lemma WordStartsAt(line: string, i: nat, k: nat)
    requires k < |Numbers| && OccursAt(line, Numbers[k].1, i)
    ensures i < |line| && ValueAt(line, i) == Some(Numbers[k].0)
  {
    WordsStartWithLetters(line, i, k);
    forall k' | 0 <= k' < k
      ensures !OccursAt(line, Numbers[k'].1, i)
    {
      DistinctKeys(k, k');
      var w, w' := Numbers[k].1, Numbers[k'].1;
      assert line[i..i + |w|] == w;
      assert line[i] == w[0] && line[i + 1] == w[1] && line[i + 2] == w[2];
      if w[0] != w'[0] {
        Mismatch(line, w', i, 0);
      } else if w[1] != w'[1] {
        Mismatch(line, w', i, 1);
      } else {
        Mismatch(line, w', i, 2);
      }
    }
    WordAtSkips(line, i, k);
  }

  /** No number starts at a letter unless a spelled digit with that first
      letter starts there. */
  lemma NothingStartsAt(line: string, i: nat)
    requires i < |line| && !IsDigit(line[i])
    requires line[i] == 'o' ==> !OccursAt(line, "one", i)
    requires line[i] == 't' ==> !OccursAt(line, "two", i) && !OccursAt(line, "three", i)
    requires line[i] == 'f' ==> !OccursAt(line, "four", i) && !OccursAt(line, "five", i)
    requires line[i] == 's' ==> !OccursAt(line, "six", i) && !OccursAt(line, "seven", i)
    requires line[i] == 'e' ==> !OccursAt(line, "eight", i)
    requires line[i] == 'n' ==> !OccursAt(line, "nine", i)
    ensures ValueAt(line, i).None?
  {
    forall k | 0 <= k < |Numbers|
      ensures !OccursAt(line, Numbers[k].1, i)
    {
      var w := Numbers[k].1;
      assert i + |w| <= |line| ==> line[i..i + |w|][0] == line[i];
    }
    WordAtNone(line, i, 0);
  }

  /** A word spelled letter by letter at `i` occurs there. */
  lemma Spells(line: string, w: string, i: nat)
    requires 3 <= |w| <= 5 && i + |w| <= |line|
    requires line[i] == w[0] && line[i + 1] == w[1] && line[i + 2] == w[2]
    requires |w| > 3 ==> line[i + 3] == w[3]
    requires |w| > 4 ==> line[i + 4] == w[4]
    ensures OccursAt(line, w, i)
  {
    assert line[i..i + |w|] == w;
  }

  /** A word does not start at `i` when it runs past the end of the line
      or one of its letters differs from the line's. */
  lemma Mismatch(line: string, w: string, i: nat, j: nat)
    requires j < |w| && (i + |w| <= |line| ==> line[i + j] != w[j])
    ensures !OccursAt(line, w, i)
  {
    assert i + |w| <= |line| ==> line[i..i + |w|][j] == line[i + j];
  }

  /** The seven lines of the part 2 sample have values 29, 83, 13, 24,
      42, 14 and 76: part 2 gives 281. */
  lemma SampleSpelled(l0: string, l1: string, l2: string, l3: string, l4: string, l5: string, l6: string)
    requires l0 == "two1nine" && l1 == "eightwothree" && l2 == "abcone2threexyz" && l3 == "xtwone3four"
    requires l4 == "4nineeightseven2" && l5 == "zoneight234" && l6 == "7pqrstsixteen"
    ensures SeqSum(SpelledValues([l0, l1, l2, l3, l4, l5, l6])) == 281
  {
    SpelledTwo1nineFirst(l0);
    SpelledTwo1nineLast(l0);
    SpelledEightwothreeFirst(l1);
    SpelledEightwothreeLast(l1);
    SpelledAbcone2threexyzFirst(l2);
    SpelledAbcone2threexyzLast(l2);
    SpelledXtwone3fourFirst(l3);
    SpelledXtwone3fourLast(l3);
    Spelled4nineeightseven2First(l4);
    Spelled4nineeightseven2Last(l4);
    SpelledZoneight234First(l5);
    SpelledZoneight234Last(l5);
    Spelled7pqrstsixteenFirst(l6);
    Spelled7pqrstsixteenLast(l6);
    SevenLines([l0, l1, l2, l3, l4, l5, l6]);
  }

  lemma SevenLines(lines: seq<string>)
    requires |lines| == 7
    ensures SeqSum(SpelledValues(lines)) ==
              LineValue(FirstNumber(lines[0]), LastNumber(lines[0])) +
              LineValue(FirstNumber(lines[1]), LastNumber(lines[1])) +
              LineValue(FirstNumber(lines[2]), LastNumber(lines[2])) +
              LineValue(FirstNumber(lines[3]), LastNumber(lines[3])) +
              LineValue(FirstNumber(lines[4]), LastNumber(lines[4])) +
              LineValue(FirstNumber(lines[5]), LastNumber(lines[5])) +
              LineValue(FirstNumber(lines[6]), LastNumber(lines[6]))
  {
    var xs := SpelledValues(lines);
    assert xs[..0] == [];
    SeqSumSnoc(xs, 0);
    SeqSumSnoc(xs, 1);
    SeqSumSnoc(xs, 2);
    SeqSumSnoc(xs, 3);
    SeqSumSnoc(xs, 4);
    SeqSumSnoc(xs, 5);
    SeqSumSnoc(xs, 6);
    assert xs[..7] == xs;
  }

  lemma SpelledTwo1nineFirst(line: string)
    requires line == "two1nine"
    ensures FirstNumber(line) == 2
  {
    Spells(line, Numbers[1].1, 0);
    WordStartsAt(line, 0, 1);
    assert FirstNumberFrom(line, 0) == 2;
  }

  lemma SpelledTwo1nineLast(line: string)
    requires line == "two1nine"
    ensures LastNumber(line) == 9
  {
    Spells(line, Numbers[8].1, 4);
    WordStartsAt(line, 4, 8);
    assert LastNumberBelow(line, 5) == 9;
    NothingStartsAt(line, 5);
    assert LastNumberBelow(line, 6) == 9;
    NothingStartsAt(line, 6);
    assert LastNumberBelow(line, 7) == 9;
    NothingStartsAt(line, 7);
    assert LastNumberBelow(line, 8) == 9;
  }

  lemma SpelledEightwothreeFirst(line: string)
    requires line == "eightwothree"
    ensures FirstNumber(line) == 8
  {
    Spells(line, Numbers[7].1, 0);
    WordStartsAt(line, 0, 7);
    assert FirstNumberFrom(line, 0) == 8;
  }

  lemma SpelledEightwothreeLast(line: string)
    requires line == "eightwothree"
    ensures LastNumber(line) == 3
  {
    Spells(line, Numbers[2].1, 7);
    WordStartsAt(line, 7, 2);
    assert LastNumberBelow(line, 8) == 3;
    NothingStartsAt(line, 8);
    assert LastNumberBelow(line, 9) == 3;
    NothingStartsAt(line, 9);
    assert LastNumberBelow(line, 10) == 3;
    NothingStartsAt(line, 10);
    assert LastNumberBelow(line, 11) == 3;
    NothingStartsAt(line, 11);
    assert LastNumberBelow(line, 12) == 3;
  }

  lemma SpelledAbcone2threexyzFirst(line: string)
    requires line == "abcone2threexyz"
    ensures FirstNumber(line) == 1
  {
    Spells(line, Numbers[0].1, 3);
    WordStartsAt(line, 3, 0);
    assert FirstNumberFrom(line, 3) == 1;
    NothingStartsAt(line, 2);
    assert FirstNumberFrom(line, 2) == 1;
    NothingStartsAt(line, 1);
    assert FirstNumberFrom(line, 1) == 1;
    NothingStartsAt(line, 0);
    assert FirstNumberFrom(line, 0) == 1;
  }

  lemma SpelledAbcone2threexyzLast(line: string)
    requires line == "abcone2threexyz"
    ensures LastNumber(line) == 3
  {
    Spells(line, Numbers[2].1, 7);
    WordStartsAt(line, 7, 2);
    assert LastNumberBelow(line, 8) == 3;
    NothingStartsAt(line, 8);
    assert LastNumberBelow(line, 9) == 3;
    NothingStartsAt(line, 9);
    assert LastNumberBelow(line, 10) == 3;
    Mismatch(line, "eight", 10, 1);
    NothingStartsAt(line, 10);
    assert LastNumberBelow(line, 11) == 3;
    NothingStartsAt(line, 11);
    assert LastNumberBelow(line, 12) == 3;
    NothingStartsAt(line, 12);
    assert LastNumberBelow(line, 13) == 3;
    NothingStartsAt(line, 13);
    assert LastNumberBelow(line, 14) == 3;
    NothingStartsAt(line, 14);
    assert LastNumberBelow(line, 15) == 3;
  }

  lemma SpelledXtwone3fourFirst(line: string)
    requires line == "xtwone3four"
    ensures FirstNumber(line) == 2
  {
    Spells(line, Numbers[1].1, 1);
    WordStartsAt(line, 1, 1);
    assert FirstNumberFrom(line, 1) == 2;
    NothingStartsAt(line, 0);
    assert FirstNumberFrom(line, 0) == 2;
  }

  lemma SpelledXtwone3fourLast(line: string)
    requires line == "xtwone3four"
    ensures LastNumber(line) == 4
  {
    Spells(line, Numbers[3].1, 7);
    WordStartsAt(line, 7, 3);
    assert LastNumberBelow(line, 8) == 4;
    Mismatch(line, "one", 8, 1);
    NothingStartsAt(line, 8);
    assert LastNumberBelow(line, 9) == 4;
    NothingStartsAt(line, 9);
    assert LastNumberBelow(line, 10) == 4;
    NothingStartsAt(line, 10);
    assert LastNumberBelow(line, 11) == 4;
  }

  lemma Spelled4nineeightseven2First(line: string)
    requires line == "4nineeightseven2"
    ensures FirstNumber(line) == 4
  {
    assert FirstNumberFrom(line, 0) == 4;
  }

  lemma Spelled4nineeightseven2Last(line: string)
    requires line == "4nineeightseven2"
    ensures LastNumber(line) == 2
  {
    assert LastNumberBelow(line, 16) == 2;
  }

  lemma SpelledZoneight234First(line: string)
    requires line == "zoneight234"
    ensures FirstNumber(line) == 1
  {
    Spells(line, Numbers[0].1, 1);
    WordStartsAt(line, 1, 0);
    assert FirstNumberFrom(line, 1) == 1;
    NothingStartsAt(line, 0);
    assert FirstNumberFrom(line, 0) == 1;
  }

  lemma SpelledZoneight234Last(line: string)
    requires line == "zoneight234"
    ensures LastNumber(line) == 4
  {
    assert LastNumberBelow(line, 11) == 4;
  }

  lemma Spelled7pqrstsixteenFirst(line: string)
    requires line == "7pqrstsixteen"
    ensures FirstNumber(line) == 7
  {
    assert FirstNumberFrom(line, 0) == 7;
  }

  lemma Spelled7pqrstsixteenLast(line: string)
    requires line == "7pqrstsixteen"
    ensures LastNumber(line) == 6
  {
    Spells(line, Numbers[5].1, 6);
    WordStartsAt(line, 6, 5);
    assert LastNumberBelow(line, 7) == 6;
    NothingStartsAt(line, 7);
    assert LastNumberBelow(line, 8) == 6;
    NothingStartsAt(line, 8);
    assert LastNumberBelow(line, 9) == 6;
    Mismatch(line, "two", 9, 1);
    NothingStartsAt(line, 9);
    assert LastNumberBelow(line, 10) == 6;
    NothingStartsAt(line, 10);
    assert LastNumberBelow(line, 11) == 6;
    NothingStartsAt(line, 11);
    assert LastNumberBelow(line, 12) == 6;
    NothingStartsAt(line, 12);
    assert LastNumberBelow(line, 13) == 6;
  }
}
