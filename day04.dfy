/**
 * Scratchcards: each card has winning numbers and numbers you have. A card
 * scores one point for its first match and doubles for every further one.
 * In the second reading every card with `m` matches wins one copy of each
 * of the next `m` cards, for every copy of it held, and the answer is the
 * number of cards held in the end.
 */
module Day04 {
  import opened Wrappers
  import opened Text
  import opened Sums

  datatype Card = Card(winning: seq<nat>, yours: seq<nat>)

  /** How many of `yours` are among `winning`, each of yours counted as
      often as it occurs. */
  function Matches(winning: seq<nat>, yours: seq<nat>): (m: nat)
    ensures m <= |yours|
  {
    if |yours| == 0 then 0
    else Matches(winning, yours[..|yours| - 1]) + (if yours[|yours| - 1] in winning then 1 else 0)
  }

  /** The matches of the card: the `filter(...).count()` of the source. */
  function MatchCount(card: Card): nat {
    Matches(card.winning, card.yours)
  }

  /** Matches add up over the parts of your numbers. */
  lemma {:induction false} MatchesAppend(winning: seq<nat>, a: seq<nat>, b: seq<nat>)
    ensures Matches(winning, a + b) == Matches(winning, a) + Matches(winning, b)
  {
    if |b| == 0 {
      assert a + b == a;
    } else {
      MatchesAppend(winning, a, b[..|b| - 1]);
      assert (a + b)[..|a + b| - 1] == a + b[..|b| - 1];
    }
  }

  /** No match exactly when none of yours wins; all match exactly when
      every one of yours wins. */
  lemma {:induction false} MatchesExtremes(winning: seq<nat>, yours: seq<nat>)
    ensures Matches(winning, yours) == 0 <==> forall i :: 0 <= i < |yours| ==> yours[i] !in winning
    ensures Matches(winning, yours) == |yours| <==> forall i :: 0 <= i < |yours| ==> yours[i] in winning
  {
    if |yours| > 0 {
      var init := yours[..|yours| - 1];
      MatchesExtremes(winning, init);
      assert forall i :: 0 <= i < |init| ==> init[i] == yours[i];
    }
  }

  function Pow2(n: nat): (p: nat)
    ensures p > n
  {
    if n == 0 then 1 else 2 * Pow2(n - 1)
  }

  /** The score of a card with `m` matches: nothing without a match, then
      2^(m - 1). */
  function Points(m: nat): (p: nat)
    ensures p == 0 <==> m == 0
    ensures m <= p
  {
    if m == 0 then 0 else Pow2(m - 1)
  }

  /** The score starts at one point for the first match and doubles with
      each further one, so it is zero exactly when nothing matches. */
  lemma PointsDouble(m: nat)
    ensures Points(m) == 0 <==> m == 0
    ensures Points(1) == 1
    ensures m >= 1 ==> Points(m + 1) == 2 * Points(m)
  {
  }

  /** `calculate_card_points`: the score goes to 1 on the first match and
      doubles on each later one. */
  method CardPoints(card: Card) returns (result: nat)
    ensures result == Points(MatchCount(card))
  {
    result := 0;
    var yours := card.yours;
    for k := 0 to |yours|
      invariant result == Points(Matches(card.winning, yours[..k]))
    {
      assert yours[..k + 1][..k] == yours[..k];
      if yours[k] in card.winning {
        PointsDouble(Matches(card.winning, yours[..k]));
        result := if result == 0 then 1 else result * 2;
      }
    }
    assert yours[..|yours|] == yours;
  }

  /** The matches of every card, in order. */
  function MatchCounts(cards: seq<Card>): (matches: seq<nat>)
    ensures |matches| == |cards|
    ensures forall i :: 0 <= i < |cards| ==> matches[i] == MatchCount(cards[i])
  {
    seq(|cards|, i requires 0 <= i < |cards| => MatchCount(cards[i]))
  }

  /** The total score of cards with the given matches. */
  function TotalPoints(matches: seq<nat>): nat {
    if |matches| == 0 then 0 else TotalPoints(matches[..|matches| - 1]) + Points(matches[|matches| - 1])
  }

  /** Every card wins copies only of cards that exist: `card_counts[i + offset]`
      is in range for every offset up to the matches of card `i`. */
  predicate CopiesStayInTable(matches: seq<nat>) {
    forall i :: 0 <= i < |matches| ==> i + matches[i] < |matches|
  }

  /** The counts after card `i`, holding `counts[i]` copies, added one
      copy of each of the next `m` cards per copy held. */
  function Propagate(counts: seq<nat>, i: nat, m: nat): (next: seq<nat>)
    requires i + m < |counts|
    ensures |next| == |counts|
  {
    seq(|counts|, j requires 0 <= j < |counts| => if i < j <= i + m then counts[j] + counts[i] else counts[j])
  }

  /** `card_counts` once the first `k` cards have been processed. */
  function CountsAfter(matches: seq<nat>, k: nat): (counts: seq<nat>)
    requires k <= |matches| && CopiesStayInTable(matches)
    ensures |counts| == |matches|
  {
    if k == 0 then seq(|matches|, _ => 1)
    else Propagate(CountsAfter(matches, k - 1), k - 1, matches[k - 1])
  }

  /** Processing card `k` touches only the next `matches[k]` cards, each
      gaining as many copies as card `k` has. */
  lemma CountsStep(matches: seq<nat>, k: nat, j: nat)
    requires k < |matches| && CopiesStayInTable(matches) && j < |matches|
    ensures CountsAfter(matches, k + 1)[j] ==
              CountsAfter(matches, k)[j] + (if k < j <= k + matches[k] then CountsAfter(matches, k)[k] else 0)
  {
  }

  /** Every card is held at least once, and counts never decrease. */
  lemma {:induction false} CountsGrow(matches: seq<nat>, k: nat, j: nat)
    requires k <= |matches| && CopiesStayInTable(matches) && j < |matches|
    ensures CountsAfter(matches, k)[j] >= 1
    ensures k < |matches| ==> CountsAfter(matches, k)[j] <= CountsAfter(matches, k + 1)[j]
  {
    if k > 0 {
      CountsGrow(matches, k - 1, j);
    }
    if k < |matches| {
      CountsStep(matches, k, j);
    }
  }

  /** The count of card `i` is final by the time card `i` is processed:
      later cards only give copies of the cards after them. */
  lemma {:induction false} CountIsFinal(matches: seq<nat>, i: nat, k: nat)
    requires i <= k <= |matches| && CopiesStayInTable(matches) && i < |matches|
    ensures CountsAfter(matches, k)[i] == CountsAfter(matches, i)[i]
  {
    if k > i {
      CountIsFinal(matches, i, k - 1);
      CountsStep(matches, k - 1, i);
    }
  }

  /** An independent account of the copies of card `i`: the original,
      plus one for every copy of each earlier card `j` whose matches reach
      card `i`. */
  function Copies(matches: seq<nat>, i: nat): nat
    requires i < |matches|
    decreases i, 1
  {
    1 + CopiesWonFrom(matches, i, i)
  }

  /** The copies of card `i` won from the cards before `j`. */
  function CopiesWonFrom(matches: seq<nat>, i: nat, j: nat): nat
    requires j <= i < |matches|
    decreases i, 0, j
  {
    if j == 0 then 0
    else CopiesWonFrom(matches, i, j - 1) + (if i <= j - 1 + matches[j - 1] then Copies(matches, j - 1) else 0)
  }

  /** The counts the loop keeps are those copies: after `k` cards, card `i`
      holds its original and the copies won from the first `k` cards. */
  lemma {:induction false} CountsAreCopies(matches: seq<nat>, k: nat, i: nat)
    requires k <= |matches| && CopiesStayInTable(matches) && i < |matches|
    ensures CountsAfter(matches, k)[i] == 1 + CopiesWonFrom(matches, i, if k < i then k else i)
    decreases k, i
  {
    if k > 0 {
      CountsAreCopies(matches, k - 1, i);
      CountsStep(matches, k - 1, i);
      if k - 1 < i {
        CountsAreCopies(matches, k - 1, k - 1);
      }
    }
  }

  /** Once every card is processed, each card holds exactly its copies. */
  lemma FinalCountsAreCopies(matches: seq<nat>, i: nat)
    requires CopiesStayInTable(matches) && i < |matches|
    ensures CountsAfter(matches, |matches|)[i] == Copies(matches, i)
  {
    CountsAreCopies(matches, |matches|, i);
  }

  /** The example's cards match 4, 2, 2, 1, 0 and 0 numbers: they score 13
      points. */
  lemma SamplePoints(matches: seq<nat>)
    requires matches == [4, 2, 2, 1, 0, 0]
    ensures TotalPoints(matches) == 13
  {
    for k := 0 to 6
      invariant TotalPoints(matches[..k]) == [0, 8, 10, 12, 13, 13, 13][k]
    {
      assert matches[..k + 1][..k] == matches[..k];
    }
    assert matches[..6] == matches;
  }

  /** With those matches the cards end up held 1, 2, 4, 8, 14 and 1 times. */
  lemma SampleCounts(matches: seq<nat>)
    requires matches == [4, 2, 2, 1, 0, 0]
    ensures CopiesStayInTable(matches) && CountsAfter(matches, 6) == [1, 2, 4, 8, 14, 1]
  {
    assert CountsAfter(matches, 1) == [1, 2, 2, 2, 2, 1];
    assert CountsAfter(matches, 2) == [1, 2, 4, 4, 2, 1];
    assert CountsAfter(matches, 3) == [1, 2, 4, 8, 6, 1];
    assert CountsAfter(matches, 4) == [1, 2, 4, 8, 14, 1];
    assert CountsAfter(matches, 5) == [1, 2, 4, 8, 14, 1];
  }

  /** In all, 30 cards are held. */
  lemma SampleTotal(matches: seq<nat>)
    requires matches == [4, 2, 2, 1, 0, 0]
    ensures CopiesStayInTable(matches) && SeqSum(CountsAfter(matches, 6)) == 30
  {
    SampleCounts(matches);
    var counts := CountsAfter(matches, 6);
    for k := 0 to 6
      invariant SeqSum(counts[..k]) == [0, 1, 3, 7, 15, 29, 30][k]
    {
      SeqSumSnoc(counts, k);
    }
    assert counts[..6] == counts;
  }

  /** Every line is `Card n: <numbers> | <numbers>`. */
  predicate WellFormedCard(line: string) {
    var body := LastPiece(line, ": ");
    var halves := SplitOnceStr(body, " | ");
    halves.Some? && AllNumbers(halves.value.0) && AllNumbers(halves.value.1)
  }

  /** The card a line describes: the numbers before and after ` | `, after
      the last `: `. */
  function ParseCard(line: string): (card: Card)
    requires WellFormedCard(line)
    ensures exists left, right ::
              LastPiece(line, ": ") == left + " | " + right &&
              AllNumbers(left) && AllNumbers(right) &&
              card == Card(ParseNumbers(left), ParseNumbers(right))
  {
    var halves := SplitOnceStr(LastPiece(line, ": "), " | ").value;
    Card(ParseNumbers(halves.0), ParseNumbers(halves.1))
  }

  predicate WellFormedCards(input: string) {
    forall i :: 0 <= i < |Lines(input)| ==> WellFormedCard(Lines(input)[i])
  }

  /** `parse_cards`: one card per line. */
  function ParseCards(input: string): (cards: seq<Card>)
    requires WellFormedCards(input)
    ensures |cards| == |Lines(input)|
    ensures forall i :: 0 <= i < |cards| ==> cards[i] == ParseCard(Lines(input)[i])
  {
    var lines := Lines(input);
    seq(|lines|, i requires 0 <= i < |lines| => ParseCard(lines[i]))
  }

  /** The total score of the cards, one card after another. */
  method TotalScore(cards: seq<Card>) returns (total: nat)
    ensures total == TotalPoints(MatchCounts(cards))
  {
    ghost var matches := MatchCounts(cards);
    total := 0;
    for k := 0 to |cards|
      invariant total == TotalPoints(matches[..k])
    {
      var points := CardPoints(cards[k]);
      assert matches[..k + 1][..k] == matches[..k];
      total := total + points;
    }
    assert matches[..|cards|] == matches;
  }

  /** `part_1`: the total score of the cards. */
  method Part1(input: string) returns (total: nat)
    requires WellFormedCards(input)
    ensures total == TotalPoints(MatchCounts(ParseCards(input)))
  {
    total := TotalScore(ParseCards(input));
  }

  /** The inner loop of `part_2`: card `i` adds its count to each of the
      next `m` counts and changes nothing else. */
  method AddCopies(cardCounts: array<nat>, i: nat, m: nat)
    requires i + m < cardCounts.Length
    modifies cardCounts
    ensures cardCounts[..] == Propagate(old(cardCounts[..]), i, m)
  {
    for offset := 1 to m + 1
      invariant cardCounts[..] == Propagate(old(cardCounts[..]), i, offset - 1)
    {
      cardCounts[i + offset] := cardCounts[i + offset] + cardCounts[i];
    }
  }

  /** `card_counts.iter().sum()`. */
  method SumCounts(cardCounts: array<nat>) returns (total: int)
    ensures total == SeqSum(cardCounts[..])
  {
    total := 0;
    for j := 0 to cardCounts.Length
      invariant total == SeqSum(cardCounts[..j])
    {
      SeqSumSnoc(cardCounts[..], j);
      assert cardCounts[..][..j + 1] == cardCounts[..j + 1];
      total := total + cardCounts[j];
    }
    assert cardCounts[..cardCounts.Length] == cardCounts[..];
  }

  /** The number of cards held in the end: `card_counts` starts at one copy
      of every card, card `i` adds its count to each of the next `m`
      counts, and the counts are summed. At least one copy of every card is
      held. */
  method CountCards(cards: seq<Card>) returns (total: int)
    requires CopiesStayInTable(MatchCounts(cards))
    ensures total == SeqSum(CountsAfter(MatchCounts(cards), |cards|))
    ensures total >= |cards|
  {
    ghost var matches := MatchCounts(cards);
    var n := |cards|;
    var cardCounts := new nat[n](_ => 1);
    assert cardCounts[..] == CountsAfter(matches, 0);
    for i := 0 to n
      invariant cardCounts[..] == CountsAfter(matches, i)
    {
      AddCopies(cardCounts, i, MatchCount(cards[i]));
    }
    total := SumCounts(cardCounts);
    ghost var counts := cardCounts[..];
    forall j | 0 <= j < n ensures counts[j] >= 1 {
      CountsGrow(matches, n, j);
    }
    SeqSumAtLeast(counts, 1);
  }

  /** `part_2`: the number of cards held in the end. */
  method Part2(input: string) returns (total: int)
    requires WellFormedCards(input) && CopiesStayInTable(MatchCounts(ParseCards(input)))
    ensures total == SeqSum(CountsAfter(MatchCounts(ParseCards(input)), |ParseCards(input)|))
    ensures total >= |ParseCards(input)|
  {
    total := CountCards(ParseCards(input));
  }
}
