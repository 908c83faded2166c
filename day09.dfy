/**
 * Mirage Maintenance: each history of readings is extended by one value at
 * either end. The history's differences are taken level by level until a
 * level is all zero; then, from the bottom level up, each level gets a new
 * last value (its last value plus the new last value of the level below)
 * or a new first value (its first value minus the new first value of the
 * level below).
 */
module Day09 {
  import opened Text
  import opened Sums

  function Last(s: seq<int>): int
    requires |s| > 0
  {
    s[|s| - 1]
  }

  predicate AllZero(s: seq<int>) {
    forall i :: 0 <= i < |s| ==> s[i] == 0
  }

  /** `calculate_next_sequence`: the differences between neighbouring
      values; `sequence.len() - 1` underflows on an empty sequence. */
  function Differences(s: seq<int>): (d: seq<int>)
    requires |s| > 0
    ensures |d| == |s| - 1
    ensures forall i :: 0 <= i < |d| ==> d[i] == s[i + 1] - s[i]
  {
    seq(|s| - 1, i requires 0 <= i < |s| - 1 => s[i + 1] - s[i])
  }

  /** The differences lose nothing but the first value: every value is the
      first one plus the differences before it. */
  lemma {:induction false} ValueFromDifferences(s: seq<int>, k: nat)
    requires k < |s|
    ensures s[k] == s[0] + SeqSum(Differences(s)[..k])
  {
    if k > 0 {
      ValueFromDifferences(s, k - 1);
      var d := Differences(s);
      assert d[..k][..k - 1] == d[..k - 1];
    }
  }

  /** `create_sequences`: the history, then the differences of each level
      in turn, up to and including the first level that is all zero. A
      level that is not all zero is not empty, and each level is one value
      shorter than the one above, so the sequence of levels is finite. */
  function Levels(s: seq<int>): (levels: seq<seq<int>>)
    ensures 1 <= |levels| <= |s| + 1
    ensures levels[0] == s && AllZero(levels[|levels| - 1])
    decreases |s|
  {
    if AllZero(s) then [s] else [s] + Levels(Differences(s))
  }

  /** The levels start at the history, each is the differences of the one
      above, only the last is all zero, and level `i` has `i` fewer values
      than the history. */
  lemma {:induction false} LevelsShape(s: seq<int>)
    ensures var levels := Levels(s);
      && 1 <= |levels| <= |s| + 1
      && levels[0] == s
      && AllZero(levels[|levels| - 1])
      && (forall i :: 0 <= i < |levels| - 1 ==>
            !AllZero(levels[i]) && |levels[i]| > 0 && levels[i + 1] == Differences(levels[i]))
      && (forall i :: 0 <= i < |levels| ==> |levels[i]| == |s| - i)
    decreases |s|
  {
    if !AllZero(s) {
      LevelsShape(Differences(s));
    }
  }

  /** The extrapolation does not panic: the level that is all zero, where
      the `unwrap`s of the bottom step look, is not empty. */
  predicate CanExtrapolate(s: seq<int>)
    decreases |s|
  {
    if AllZero(s) then |s| > 0 else CanExtrapolate(Differences(s))
  }

  /** `CanExtrapolate` says exactly that the last level is not empty. */
  lemma {:induction false} CanExtrapolateIffLastLevel(s: seq<int>)
    ensures CanExtrapolate(s) <==> |Levels(s)[|Levels(s)| - 1]| > 0
    decreases |s|
  {
    if !AllZero(s) {
      CanExtrapolateIffLastLevel(Differences(s));
      assert Levels(s)[1..] == Levels(Differences(s));
    }
  }

  /** Every level of an extrapolable history is extrapolable. */
  lemma {:induction false} LevelsCanExtrapolate(s: seq<int>)
    requires CanExtrapolate(s)
    ensures forall i :: 0 <= i < |Levels(s)| ==> CanExtrapolate(Levels(s)[i])
    decreases |s|
  {
    if !AllZero(s) {
      LevelsCanExtrapolate(Differences(s));
      assert Levels(s)[1..] == Levels(Differences(s));
    }
  }

  /** The value `extrapolate_next_value` puts after the history. */
  function NextValue(s: seq<int>): int
    requires CanExtrapolate(s)
    decreases |s|
  {
    Last(s) + (if AllZero(s) then 0 else NextValue(Differences(s)))
  }

  /** The value `extrapolate_prev_value` puts before the history. */
  function PrevValue(s: seq<int>): int
    requires CanExtrapolate(s)
    decreases |s|
  {
    s[0] - (if AllZero(s) then 0 else PrevValue(Differences(s)))
  }

  /** What makes the next value the right one: the history extended by it
      has as differences the differences extended by their own next value,
      and an all-zero level stays all zero. */
  lemma NextValueExtends(s: seq<int>)
    requires CanExtrapolate(s)
    ensures AllZero(s) ==> AllZero(s + [NextValue(s)])
    ensures !AllZero(s) ==> Differences(s + [NextValue(s)]) == Differences(s) + [NextValue(Differences(s))]
  {
    var e := s + [NextValue(s)];
    if !AllZero(s) {
      var d, de := Differences(s), Differences(e);
      var expected := d + [NextValue(d)];
      assert |de| == |expected|;
      forall i | 0 <= i < |de| ensures de[i] == expected[i] {
        if i < |d| {
          assert e[i + 1] == s[i + 1] && e[i] == s[i];
        }
      }
    }
  }

  /** The same for the previous value, at the front. */
  lemma PrevValueExtends(s: seq<int>)
    requires CanExtrapolate(s)
    ensures AllZero(s) ==> AllZero([PrevValue(s)] + s)
    ensures !AllZero(s) ==> Differences([PrevValue(s)] + s) == [PrevValue(Differences(s))] + Differences(s)
  {
    var p := PrevValue(s);
    var e := [p] + s;
    if AllZero(s) {
      assert p == 0;
      assert forall i :: 0 < i < |e| ==> e[i] == s[i - 1];
    } else {
      var d, de := Differences(s), Differences(e);
      var expected := [PrevValue(d)] + d;
      assert |de| == |expected|;
      forall i | 0 <= i < |de| ensures de[i] == expected[i] {
        if i > 0 {
          assert e[i + 1] == s[i] && e[i] == s[i - 1];
        }
      }
    }
  }

  /** A constant history of two or more readings continues with the same
      value at both ends. */
  lemma ConstantHistory(s: seq<int>, c: int)
    requires |s| >= 2 && forall i :: 0 <= i < |s| ==> s[i] == c
    ensures CanExtrapolate(s) && NextValue(s) == c && PrevValue(s) == c
  {
    if c != 0 {
      assert s[0] != 0;
      var d := Differences(s);
      assert AllZero(d);
      assert d[0] == 0;
    }
  }

  /** An arithmetic progression of three or more readings continues with
      the next and the previous term. */
  lemma LinearHistory(s: seq<int>, a: int, step: int)
    requires |s| >= 3 && forall i :: 0 <= i < |s| ==> s[i] == a + i * step
    ensures CanExtrapolate(s)
    ensures NextValue(s) == a + |s| * step && PrevValue(s) == a - step
  {
    var d := Differences(s);
    forall i | 0 <= i < |d| ensures d[i] == step {
      assert s[i + 1] - s[i] == (a + (i + 1) * step) - (a + i * step);
    }
    ConstantHistory(d, step);
    if AllZero(s) {
      assert s[0] == 0 && s[1] == 0;
    }
  }

  /** `extrapolate_next_value`: the levels are built, then from the bottom
      level up each level above gets its last value plus the last value of
      the level below pushed onto its end; the answer is the new last value
      of the history. */
  method ExtrapolateNext(history: seq<int>) returns (v: int)
    requires CanExtrapolate(history)
    ensures v == NextValue(history)
  {
    var sequences := Levels(history);
    ghost var levels := sequences;
    LevelsShape(history);
    LevelsCanExtrapolate(history);
    CanExtrapolateIffLastLevel(history);
    var n := |sequences|;
    var i := n - 1;
    while i > 0
      invariant 0 <= i < n == |sequences|
      invariant forall j :: 0 <= j < i ==> sequences[j] == levels[j]
      invariant |sequences[i]| > 0 && Last(sequences[i]) == NextValue(levels[i])
    {
      var extrapolated := Last(sequences[i - 1]) + Last(sequences[i]);
      sequences := sequences[i - 1 := sequences[i - 1] + [extrapolated]];
      i := i - 1;
    }
    v := Last(sequences[0]);
  }

  /** `extrapolate_prev_value`: as `ExtrapolateNext`, but each level above
      gets its first value minus the first value of the level below
      inserted at its front. */
  method ExtrapolatePrev(history: seq<int>) returns (v: int)
    requires CanExtrapolate(history)
    ensures v == PrevValue(history)
  {
    var sequences := Levels(history);
    ghost var levels := sequences;
    LevelsShape(history);
    LevelsCanExtrapolate(history);
    CanExtrapolateIffLastLevel(history);
    var n := |sequences|;
    var i := n - 1;
    while i > 0
      invariant 0 <= i < n == |sequences|
      invariant forall j :: 0 <= j < i ==> sequences[j] == levels[j]
      invariant |sequences[i]| > 0 && sequences[i][0] == PrevValue(levels[i])
    {
      var extrapolated := sequences[i - 1][0] - sequences[i][0];
      sequences := sequences[i - 1 := [extrapolated] + sequences[i - 1]];
      i := i - 1;
    }
    v := sequences[0][0];
  }

  /** One level of the extrapolation: a history that is not all zero
      continues with its last value plus the next value of its differences,
      and starts with its first value minus their previous value. */
  lemma ExtrapolateOneLevel(s: seq<int>, k: nat, d: seq<int>)
    requires k < |s| && s[k] != 0 && Differences(s) == d && CanExtrapolate(d)
    ensures CanExtrapolate(s)
    ensures NextValue(s) == Last(s) + NextValue(d) && PrevValue(s) == s[0] - PrevValue(d)
  {
  }

  /** The totals of a report of three histories. */
  lemma TotalsOfThree(a: seq<int>, b: seq<int>, c: seq<int>)
    requires CanExtrapolate(a) && CanExtrapolate(b) && CanExtrapolate(c)
    ensures AllExtrapolable([a, b, c])
    ensures NextTotal([a, b, c]) == NextValue(a) + NextValue(b) + NextValue(c)
    ensures PrevTotal([a, b, c]) == PrevValue(a) + PrevValue(b) + PrevValue(c)
  {
    var report := [a, b, c];
    assert [a, b][..1] == [a] && [a][..0] == [];
    assert NextTotal([a]) == NextValue(a) && PrevTotal([a]) == PrevValue(a);
    assert NextTotal([a, b]) == NextValue(a) + NextValue(b);
    assert PrevTotal([a, b]) == PrevValue(a) + PrevValue(b);
    assert report[..2] == [a, b];
  }

  /** The example's first history continues with 18 and starts with -3. */
  lemma SampleLinear(s: seq<int>)
    requires s == [0, 3, 6, 9, 12, 15]
    ensures CanExtrapolate(s) && NextValue(s) == 18 && PrevValue(s) == -3
  {
    LinearHistory(s, 0, 3);
  }

  /** The example's second history continues with 28 and starts with 0. */
  lemma SampleQuadratic(s: seq<int>, d: seq<int>)
    requires s == [1, 3, 6, 10, 15, 21] && d == [2, 3, 4, 5, 6]
    ensures CanExtrapolate(s) && NextValue(s) == 28 && PrevValue(s) == 0
  {
    LinearHistory(d, 2, 1);
    ExtrapolateOneLevel(s, 0, d);
  }

  /** The differences of the example's third history continue with 23 and
      start with 5. */
  lemma SampleCubicDifferences(d: seq<int>, d2: seq<int>)
    requires d == [3, 3, 5, 9, 15] && d2 == [0, 2, 4, 6]
    ensures CanExtrapolate(d) && NextValue(d) == 23 && PrevValue(d) == 5
  {
    LinearHistory(d2, 0, 2);
    ExtrapolateOneLevel(d, 0, d2);
  }

  /** The example's third history continues with 68 and starts with 5. */
  lemma SampleCubic(s: seq<int>, d: seq<int>)
    requires s == [10, 13, 16, 21, 30, 45] && d == [3, 3, 5, 9, 15]
    ensures CanExtrapolate(s) && NextValue(s) == 68 && PrevValue(s) == 5
  {
    SampleCubicDifferences(d, [0, 2, 4, 6]);
    ExtrapolateOneLevel(s, 0, d);
  }

  /** The three histories of the puzzle's example: their next values sum
      to 114 and their previous values to 2. */
  lemma SampleAnswers(report: seq<seq<int>>)
    requires report == [[0, 3, 6, 9, 12, 15], [1, 3, 6, 10, 15, 21], [10, 13, 16, 21, 30, 45]]
    ensures AllExtrapolable(report) && NextTotal(report) == 114 && PrevTotal(report) == 2
  {
    SampleLinear(report[0]);
    SampleQuadratic(report[1], [2, 3, 4, 5, 6]);
    SampleCubic(report[2], [3, 3, 5, 9, 15]);
    TotalsOfThree(report[0], report[1], report[2]);
  }

  /** Every line of the report is a list of signed numbers. */
  predicate WellFormedReport(input: string) {
    forall i :: 0 <= i < |Lines(input)| ==> AllIntegers(Lines(input)[i])
  }

  /** `parse_report`: one history per line, its numbers separated by
      whitespace. */
  function ParseReport(input: string): (report: seq<seq<int>>)
    requires WellFormedReport(input)
    ensures |report| == |Lines(input)|
    ensures forall i :: 0 <= i < |report| ==> report[i] == ParseIntegers(Lines(input)[i])
  {
    var lines := Lines(input);
    seq(|lines|, i requires 0 <= i < |lines| => ParseIntegers(lines[i]))
  }

  predicate AllExtrapolable(report: seq<seq<int>>) {
    forall i :: 0 <= i < |report| ==> CanExtrapolate(report[i])
  }

  /** The sum of the next values of the histories. */
  function NextTotal(report: seq<seq<int>>): int
    requires AllExtrapolable(report)
  {
    if |report| == 0 then 0 else NextTotal(report[..|report| - 1]) + NextValue(report[|report| - 1])
  }

  /** The sum of the previous values of the histories. */
  function PrevTotal(report: seq<seq<int>>): int
    requires AllExtrapolable(report)
  {
    if |report| == 0 then 0 else PrevTotal(report[..|report| - 1]) + PrevValue(report[|report| - 1])
  }

  /** `part_1`: the sum of the extrapolated next values. */
  method Part1(input: string) returns (r: int)
    requires WellFormedReport(input) && AllExtrapolable(ParseReport(input))
    ensures r == NextTotal(ParseReport(input))
  {
    var report := ParseReport(input);
    r := 0;
    for k := 0 to |report|
      invariant r == NextTotal(report[..k])
    {
      var v := ExtrapolateNext(report[k]);
      assert report[..k + 1][..k] == report[..k];
      r := r + v;
    }
    assert report[..|report|] == report;
  }

  /** `part_2`: the sum of the extrapolated previous values. */
  method Part2(input: string) returns (r: int)
    requires WellFormedReport(input) && AllExtrapolable(ParseReport(input))
    ensures r == PrevTotal(ParseReport(input))
  {
    var report := ParseReport(input);
    r := 0;
    for k := 0 to |report|
      invariant r == PrevTotal(report[..k])
    {
      var v := ExtrapolatePrev(report[k]);
      assert report[..k + 1][..k] == report[..k];
      r := r + v;
    }
    assert report[..|report|] == report;
  }
}
