/**
 * Camel Cards: hands of five cards are classified by how many cards of a
 * kind they hold, ordered by type and then card by card, and every hand wins
 * its bid times its rank. In the second part `J` is a joker: the weakest
 * card on its own, but it upgrades the type of the hand it is in.
 */
module Day07 {
  import opened Wrappers
  import Text
  import opened Sorting

  /** The cards, weakest first: the order of the Rust enum. */
  datatype Card = Joker | Two | Three | Four | Five | Six | Seven | Eight | Nine | Ten
                | Jack | Queen | King | Ace

  /** The hand types, weakest first. */
  datatype HandType = HighCard | OnePair | TwoPair | ThreeOfAKind | FullHouse
                    | FourOfAKind | FiveOfAKind

  /** `[Card; 5]`. */
  type Hand = h: seq<Card> | |h| == 5 witness [Two, Two, Two, Two, Two]

  /** A hand with its bid. */
  datatype Entry = Entry(hand: Hand, bid: nat)

  /** The position of a card in the declaration order, which the derived
      `Ord` compares. */
  function CardRank(c: Card): (r: nat)
    ensures r < 14
    ensures r == 0 <==> c == Joker
    ensures r == 13 <==> c == Ace
  {
    match c
    case Joker => 0 case Two => 1 case Three => 2 case Four => 3 case Five => 4
    case Six => 5 case Seven => 6 case Eight => 7 case Nine => 8 case Ten => 9
    case Jack => 10 case Queen => 11 case King => 12 case Ace => 13
  }

  /** The position of a hand type in the declaration order. */
  function TypeRank(t: HandType): (r: nat)
    ensures r < 7
    ensures r == 0 <==> t == HighCard
    ensures r == 6 <==> t == FiveOfAKind
  {
    match t
    case HighCard => 0 case OnePair => 1 case TwoPair => 2 case ThreeOfAKind => 3
    case FullHouse => 4 case FourOfAKind => 5 case FiveOfAKind => 6
  }

  /** The characters `Card::from` accepts; any other one panics. */
  predicate IsCardChar(c: char) {
    c == '2' || c == '3' || c == '4' || c == '5' || c == '6' || c == '7' || c == '8'
    || c == '9' || c == 'T' || c == 'J' || c == 'Q' || c == 'K' || c == 'A'
  }

  /** `Card::from`: `J` is the joker exactly when jokers are present, and
      the jack otherwise. */
  function CardFrom(c: char, jokersPresent: bool): (card: Card)
    requires IsCardChar(c)
    ensures card == Joker <==> c == 'J' && jokersPresent
    ensures card == Jack <==> c == 'J' && !jokersPresent
  {
    match c
    case '2' => Two case '3' => Three case '4' => Four case '5' => Five
    case '6' => Six case '7' => Seven case '8' => Eight case '9' => Nine
    case 'T' => Ten case 'Q' => Queen case 'K' => King case 'A' => Ace
    case _ => if jokersPresent then Joker else Jack
  }

  /** The character a card is written with; reading it back, with jokers
      present exactly for the joker, gives the card again. */
  function CardChar(card: Card): (c: char)
    ensures IsCardChar(c) && CardFrom(c, card == Joker) == card
  {
    match card
    case Joker => 'J' case Two => '2' case Three => '3' case Four => '4'
    case Five => '5' case Six => '6' case Seven => '7' case Eight => '8'
    case Nine => '9' case Ten => 'T' case Jack => 'J' case Queen => 'Q'
    case King => 'K' case Ace => 'A'
  }

  // ---------------------------------------------------------------------------
  // Counting cards of a kind
  // ---------------------------------------------------------------------------

  /** How often `c` occurs in `hand`. */
  function Occurrences(cards: seq<Card>, c: Card): (n: nat)
    ensures n <= |cards|
    ensures n == 0 <==> c !in cards
  {
    if |cards| == 0 then 0
    else Occurrences(cards[..|cards| - 1], c) + (if cards[|cards| - 1] == c then 1 else 0)
  }

  /** The fold of `get_hand_type_ignoring_jokers`: a map from each card
      other than the joker to the number of times it was met. */
  function CountCards(cards: seq<Card>): (counts: map<Card, nat>)
    ensures forall c :: c in counts <==> c in cards && c != Joker
    ensures forall c :: c in counts ==> counts[c] == Occurrences(cards, c)
  {
    if |cards| == 0 then map[]
    else
      var counts := CountCards(cards[..|cards| - 1]);
      var card := cards[|cards| - 1];
      if card == Joker then counts
      else if card in counts then counts[card := counts[card] + 1]
      else counts[card := 1]
  }

  /** `card_counts.contains(&k)`. */
  predicate HasCount(counts: map<Card, nat>, k: nat) {
    k in counts.Values
  }

  /** The number of kinds held exactly twice. */
  function PairCount(counts: map<Card, nat>): nat {
    |set c | c in counts && counts[c] == 2|
  }

  /** `get_hand_type_ignoring_jokers`: the type from the counts of the cards
      other than jokers, the strongest pattern first. Five of a kind means
      some card held five times, and a high card means no card held twice. */
  function HandTypeIgnoringJokers(hand: Hand): (t: HandType)
    ensures t == FiveOfAKind <==> exists c :: c != Joker && Occurrences(hand, c) == 5
    ensures t == HighCard <==> forall c :: c != Joker ==> Occurrences(hand, c) <= 1
  {
    var counts := CountCards(hand);
    HasCountIff(hand, 2);
    HasCountIff(hand, 3);
    HasCountIff(hand, 4);
    HasCountIff(hand, 5);
    if HasCount(counts, 5) then FiveOfAKind
    else if HasCount(counts, 4) then FourOfAKind
    else if HasCount(counts, 3) && HasCount(counts, 2) then FullHouse
    else if HasCount(counts, 3) then ThreeOfAKind
    else if PairCount(counts) == 2 then
      assert exists c :: c in counts && counts[c] == 2 by {
        assert |set c | c in counts && counts[c] == 2| > 0;
      }
      TwoPair
    else if HasCount(counts, 2) then OnePair
    else HighCard
  }

  /** A count of `k > 0` is among the counts exactly when some card other
      than the joker is held `k` times. */
  lemma HasCountIff(cards: seq<Card>, k: nat)
    requires k > 0
    ensures HasCount(CountCards(cards), k) ==> exists c :: c != Joker && Occurrences(cards, c) == k
    ensures (exists c :: c != Joker && Occurrences(cards, c) == k) ==> HasCount(CountCards(cards), k)
  {
    var counts := CountCards(cards);
    if HasCount(counts, k) {
      var c :| c in counts && counts[c] == k;
      assert c != Joker && Occurrences(cards, c) == k;
    }
  }

  /** The number of jokers in the hand. */
  function JokerCount(hand: Hand): nat {
    Occurrences(hand, Joker)
  }

  /** `get_hand_type`: the jokers upgrade the type found without them, each
      joker joining the largest group. The upgrade never lowers the type,
      changes nothing without jokers, and five jokers are five of a kind. */
  function HandTypeOf(hand: Hand): (t: HandType)
    ensures TypeRank(t) >= TypeRank(HandTypeIgnoringJokers(hand))
    ensures JokerCount(hand) == 0 ==> t == HandTypeIgnoringJokers(hand)
    ensures JokerCount(hand) == 5 ==> t == FiveOfAKind
  {
    var handType := HandTypeIgnoringJokers(hand);
    var jokers := JokerCount(hand);
    match (handType, jokers)
    case (HighCard, 1) => OnePair
    case (HighCard, 2) => ThreeOfAKind
    case (HighCard, 3) => FourOfAKind
    case (HighCard, 4) => FiveOfAKind
    case (HighCard, 5) => FiveOfAKind
    case (OnePair, 1) => ThreeOfAKind
    case (OnePair, 2) => FourOfAKind
    case (OnePair, 3) => FiveOfAKind
    case (TwoPair, 1) => FullHouse
    case (ThreeOfAKind, 1) => FourOfAKind
    case (ThreeOfAKind, 2) => FiveOfAKind
    case (FourOfAKind, 1) => FiveOfAKind
    case (t, _) =>
      assert jokers == 5 ==> t == HighCard by {
        if jokers == 5 {
          FiveJokers(hand);
        }
      }
      t
  }

  /** A hand of five jokers holds no other card. */
  lemma FiveJokers(hand: Hand)
    requires JokerCount(hand) == 5
    ensures HandTypeIgnoringJokers(hand) == HighCard
  {
    OnlyJokers(hand);
  }

  /** A hand of nothing but jokers holds no other card. */
  lemma {:induction false} OnlyJokers(cards: seq<Card>)
    requires Occurrences(cards, Joker) == |cards|
    ensures forall c :: c in cards ==> c == Joker
  {
    if |cards| > 0 {
      var n := |cards| - 1;
      OnlyJokers(cards[..n]);
      assert cards == cards[..n] + [cards[n]];
    }
  }

  // ---------------------------------------------------------------------------
  // Ranking and winnings
  // ---------------------------------------------------------------------------

  /** The cards of a hand as their ranks. */
  function CardRanks(hand: Hand): (ranks: seq<int>)
    ensures |ranks| == |hand|
    ensures forall i :: 0 <= i < |hand| ==> ranks[i] == CardRank(hand[i])
  {
    seq(|hand|, i requires 0 <= i < |hand| => CardRank(hand[i]) as int)
  }

  /** The sort key of the first part: the type found without jokers, then the
      cards in order. */
  function KeyIgnoringJokers(e: Entry): (k: seq<int>)
    ensures |k| == |e.hand| + 1 && k[0] == TypeRank(HandTypeIgnoringJokers(e.hand))
    ensures k[1..] == CardRanks(e.hand)
  {
    [TypeRank(HandTypeIgnoringJokers(e.hand)) as int] + CardRanks(e.hand)
  }

  /** The sort key of the second part: the type with jokers, then the cards. */
  function KeyWithJokers(e: Entry): (k: seq<int>)
    ensures |k| == |e.hand| + 1 && k[0] == TypeRank(HandTypeOf(e.hand))
    ensures k[1..] == CardRanks(e.hand)
  {
    [TypeRank(HandTypeOf(e.hand)) as int] + CardRanks(e.hand)
  }

  /** The sum of the bids. */
  function SumBids(entries: seq<Entry>): nat {
    if |entries| == 0 then 0 else SumBids(entries[..|entries| - 1]) + entries[|entries| - 1].bid
  }

  /** `calculate_total_winnings`: the hand at position `i` wins its bid times
      its rank `i + 1`. Every rank lies between 1 and the number of hands,
      so the winnings lie between the sum of the bids and that many times
      the sum. */
  function TotalWinnings(entries: seq<Entry>): (r: nat)
    ensures SumBids(entries) <= r <= |entries| * SumBids(entries)
  {
    if |entries| == 0 then 0
    else
      var n := |entries| - 1;
      BoundsStep(TotalWinnings(entries[..n]), SumBids(entries[..n]), entries[n].bid, n);
      TotalWinnings(entries[..n]) + entries[n].bid * |entries|
  }

  /** The arithmetic of one more hand of rank `n + 1`. */
  lemma BoundsStep(winnings: nat, bids: nat, bid: nat, n: nat)
    requires bids <= winnings <= n * bids
    ensures bids + bid <= winnings + bid * (n + 1) <= (n + 1) * (bids + bid)
  {
    assert bid <= bid * (n + 1);
    assert n * bids <= (n + 1) * bids;
  }

  /** Sorting does not change the sum of the bids. */
  lemma {:induction false} SumBidsOfSort(entries: seq<Entry>, key: Entry -> seq<int>)
    ensures SumBids(SortBy(entries, key)) == SumBids(entries)
  {
    if |entries| > 0 {
      var n := |entries| - 1;
      SumBidsOfSort(entries[..n], key);
      SumBidsOfInsert(entries[n], SortBy(entries[..n], key), key);
    }
  }

  /** Inserting a hand adds its bid to the sum of the bids. */
  lemma {:induction false} SumBidsOfInsert(x: Entry, s: seq<Entry>, key: Entry -> seq<int>)
    requires SortedBy(s, key)
    ensures SumBids(InsertBy(x, s, key)) == SumBids(s) + x.bid
  {
    if |s| > 0 && LexLe(key(s[0]), key(x)) {
      SumBidsOfInsert(x, s[1..], key);
      SumBidsCons(s[0], s[1..]);
      SumBidsCons(s[0], InsertBy(x, s[1..], key));
      assert s == [s[0]] + s[1..];
    } else {
      SumBidsCons(x, s);
    }
  }

  /** The sum of the bids, taking the first hand apart. */
  lemma {:induction false} SumBidsCons(e: Entry, s: seq<Entry>)
    ensures SumBids([e] + s) == e.bid + SumBids(s)
  {
    if |s| > 0 {
      var n := |s| - 1;
      SumBidsCons(e, s[..n]);
      assert ([e] + s)[..n + 1] == [e] + s[..n];
    }
  }

  // ---------------------------------------------------------------------------
  // Parsing and the two answers
  // ---------------------------------------------------------------------------

  /** A line `hand bid`: five card characters, a space and a decimal bid. */
  predicate IsHandLine(line: string) {
    var parts := Text.SplitOnce(line, ' ');
    parts.Some? && |parts.value.0| == 5
    && (forall i :: 0 <= i < 5 ==> IsCardChar(parts.value.0[i]))
    && Text.IsDecimal(parts.value.1)
  }

  /** Input every line of which `parse_hands` reads without panicking. */
  predicate IsValidInput(input: string) {
    var lines := Text.Lines(input);
    forall i :: 0 <= i < |lines| ==> IsHandLine(lines[i])
  }

  /** Writing back the card read from `c` gives `c`. */
  lemma CardCharOfCardFrom(c: char, jokersPresent: bool)
    requires IsCardChar(c)
    ensures CardChar(CardFrom(c, jokersPresent)) == c
  {
  }

  /** The cards of a hand, read one character at a time; writing them back
      gives the text again. */
  function ParseCards(text: string, jokersPresent: bool): (hand: Hand)
    requires |text| == 5 && forall i :: 0 <= i < 5 ==> IsCardChar(text[i])
    ensures forall i :: 0 <= i < 5 ==> CardChar(hand[i]) == text[i]
  {
    forall i | 0 <= i < 5 {
      CardCharOfCardFrom(text[i], jokersPresent);
    }
    seq(5, i requires 0 <= i < 5 => CardFrom(text[i], jokersPresent))
  }

  /** One line of `parse_hands`: the cards of the hand and the bid. */
  function ParseHand(line: string, jokersPresent: bool): (e: Entry)
    requires IsHandLine(line)
    ensures forall i :: 0 <= i < 5 ==> CardChar(e.hand[i]) == line[i]
  {
    var parts := Text.SplitOnce(line, ' ').value;
    assert forall i :: 0 <= i < 5 ==> line[i] == parts.0[i] by {
      assert line == parts.0 + [' '] + parts.1;
    }
    Entry(ParseCards(parts.0, jokersPresent), Text.DecimalValue(parts.1))
  }

  /** `parse_hands`: one hand and bid per line. */
  function ParseHands(input: string, jokersPresent: bool): (entries: seq<Entry>)
    requires IsValidInput(input)
    ensures |entries| == |Text.Lines(input)|
  {
    var lines := Text.Lines(input);
    seq(|lines|, i requires 0 <= i < |lines| => ParseHand(lines[i], jokersPresent))
  }

  /** `part_1`: the hands sorted by type and then card by card, each winning
      its bid times its rank; at least the sum of the bids. */
  function Part1(input: string): (winnings: nat)
    requires IsValidInput(input)
    ensures SumBids(ParseHands(input, false)) <= winnings
    ensures winnings <= |ParseHands(input, false)| * SumBids(ParseHands(input, false))
  {
    var entries := ParseHands(input, false);
    var sorted := SortBy(entries, KeyIgnoringJokers);
    SumBidsOfSort(entries, KeyIgnoringJokers);
    TotalWinnings(sorted)
  }

  /** `part_2`: the same with `J` as a joker. */
  function Part2(input: string): (winnings: nat)
    requires IsValidInput(input)
    ensures SumBids(ParseHands(input, true)) <= winnings
    ensures winnings <= |ParseHands(input, true)| * SumBids(ParseHands(input, true))
  {
    var entries := ParseHands(input, true);
    var sorted := SortBy(entries, KeyWithJokers);
    SumBidsOfSort(entries, KeyWithJokers);
    TotalWinnings(sorted)
  }
}
