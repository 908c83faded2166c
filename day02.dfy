/** Day 2: games of drawing coloured cubes from a bag. A game is possible
    when no draw shows more cubes of a colour than the bag of 12 red, 13
    green and 14 blue holds; its minimum bag is the largest count of each
    colour over its draws. */
module Day02 {
  import opened Text

  /** The cubes of one draw: how many red, green and blue (`CubeValues`). */
  datatype Cubes = Cubes(r: nat, g: nat, b: nat)

  /** `CUBES_R`, `CUBES_G` and `CUBES_B`: the bag part 1 asks about. */
  const Bag := Cubes(12, 13, 14)

  /** A game: its id and its draws, in order. */
  datatype Game = Game(id: nat, draws: seq<Cubes>)

  /** No colour of `c` exceeds that colour in `limit`. */
  predicate Within(c: Cubes, limit: Cubes) {
    c.r <= limit.r && c.g <= limit.g && c.b <= limit.b
  }

  /** `cmp::max`. */
  function Larger(a: nat, b: nat): nat {
    if a >= b then a else b
  }

  /** The componentwise maximum of the draws, starting from no cubes: a
      bag that holds every draw. */
  function Minimum(draws: seq<Cubes>): (m: Cubes)
    ensures forall i :: 0 <= i < |draws| ==> Within(draws[i], m)
  {
    if |draws| == 0 then Cubes(0, 0, 0)
    else
      var m := Minimum(draws[..|draws| - 1]);
      var d := draws[|draws| - 1];
      Cubes(Larger(m.r, d.r), Larger(m.g, d.g), Larger(m.b, d.b))
  }

  /** The minimum bag holds every draw, each of its counts is zero or the
      count some draw shows, and so it lies within every bag that holds
      every draw: it is the least such bag. */
  lemma {:induction false} MinimumIsLeastBound(draws: seq<Cubes>)
    ensures forall i :: 0 <= i < |draws| ==> Within(draws[i], Minimum(draws))
    ensures Minimum(draws).r == 0 || exists i :: 0 <= i < |draws| && draws[i].r == Minimum(draws).r
    ensures Minimum(draws).g == 0 || exists i :: 0 <= i < |draws| && draws[i].g == Minimum(draws).g
    ensures Minimum(draws).b == 0 || exists i :: 0 <= i < |draws| && draws[i].b == Minimum(draws).b
    ensures forall bag :: (forall i :: 0 <= i < |draws| ==> Within(draws[i], bag)) ==> Within(Minimum(draws), bag)
  {
    if |draws| > 0 {
      var init := draws[..|draws| - 1];
      MinimumIsLeastBound(init);
      forall i | 0 <= i < |init|
        ensures init[i] == draws[i]
      {
      }
    }
  }

  /** `calculate_minimum_cubes_needed`: three running maxima over the
      draws. */
  method MinimumCubesNeeded(values: seq<Cubes>) returns (minimum: Cubes)
    ensures minimum == Minimum(values)
  {
    var minimumR, minimumG, minimumB := 0, 0, 0;
    for k := 0 to |values|
      invariant Cubes(minimumR, minimumG, minimumB) == Minimum(values[..k])
    {
      assert values[..k + 1][..k] == values[..k];
      var draw := values[k];
      minimumR := Larger(minimumR, draw.r);
      minimumG := Larger(minimumG, draw.g);
      minimumB := Larger(minimumB, draw.b);
    }
    assert values[..|values|] == values;
    minimum := Cubes(minimumR, minimumG, minimumB);
  }

  /** `is_game_possible`: every draw fits in the bag. This holds exactly
      when the game's minimum bag fits in the bag; a game without draws is
      possible. */
  function IsGamePossible(values: seq<Cubes>): (possible: bool)
    ensures possible <==> Within(Minimum(values), Bag)
    ensures |values| == 0 ==> possible
  {
    MinimumIsLeastBound(values);
    forall i :: 0 <= i < |values| ==> Within(values[i], Bag)
  }

  /** The power of a bag: its three counts multiplied. */
  function Power(c: Cubes): nat {
    c.r * c.g * c.b
  }

  /** A possible game needs a bag of power at most 12 * 13 * 14. */
  lemma PossiblePowerBound(values: seq<Cubes>)
    requires IsGamePossible(values)
    ensures Power(Minimum(values)) <= 2184
  {
    PowerWithinBag(Minimum(values));
  }

  /** A bag within the bag of part 1 has power at most 12 * 13 * 14. */
  lemma PowerWithinBag(c: Cubes)
    requires Within(c, Bag)
    ensures Power(c) <= 2184
  {
    MultiplyAtMost(c.r, 12, c.g);
    MultiplyAtMost(c.r * c.g, 156, c.b);
  }

  lemma MultiplyAtMost(x: nat, y: nat, z: nat)
    requires x <= y
    ensures x * z <= y * z
  {
  }

  /** The ids of the possible games, summed: the answer of part 1. */
  function IdSum(games: seq<Game>): nat {
    if |games| == 0 then 0
    else
      var game := games[|games| - 1];
      IdSum(games[..|games| - 1]) + (if IsGamePossible(game.draws) then game.id else 0)
  }

  /** The powers of the minimum bags, summed: the answer of part 2. */
  function PowerSum(games: seq<Game>): nat {
    if |games| == 0 then 0
    else PowerSum(games[..|games| - 1]) + Power(Minimum(games[|games| - 1].draws))
  }

  /** Part 1 never counts more than the ids of all games, and counts them
      all exactly when every game is possible. */
  lemma {:induction false} IdSumAtMost(games: seq<Game>)
    ensures IdSum(games) <= AllIds(games)
    ensures (forall i :: 0 <= i < |games| ==> IsGamePossible(games[i].draws)) ==> IdSum(games) == AllIds(games)
  {
    if |games| > 0 {
      var init := games[..|games| - 1];
      IdSumAtMost(init);
      assert forall i :: 0 <= i < |init| ==> init[i] == games[i];
    }
  }

  /** The ids of all games, summed. */
  function AllIds(games: seq<Game>): nat {
    if |games| == 0 then 0 else AllIds(games[..|games| - 1]) + games[|games| - 1].id
  }

  /** A game of possible draws adds at most 2184 to part 2. */
  lemma {:induction false} PowerSumOfPossible(games: seq<Game>)
    requires forall i :: 0 <= i < |games| ==> IsGamePossible(games[i].draws)
    ensures PowerSum(games) <= 2184 * |games|
  {
    if |games| > 0 {
      var init := games[..|games| - 1];
      assert forall i :: 0 <= i < |init| ==> init[i] == games[i];
      PowerSumOfPossible(init);
      PossiblePowerBound(games[|games| - 1].draws);
    }
  }

  // Parsing

  /** `<number> <colour>`, the colour one of the three: any other colour
      panics. */
  predicate WellFormedCube(s: string) {
    var parts := SplitOnce(s, ' ');
    parts.Some? && IsDecimal(parts.value.0) && parts.value.1 in {"red", "green", "blue"}
  }

  function CubeCount(s: string): nat
    requires WellFormedCube(s)
  {
    DecimalValue(SplitOnce(s, ' ').value.0)
  }

  function CubeColour(s: string): string
    requires WellFormedCube(s)
  {
    SplitOnce(s, ' ').value.1
  }

  predicate AllWellFormedCubes(cubes: seq<string>) {
    forall i :: 0 <= i < |cubes| ==> WellFormedCube(cubes[i])
  }

  /** One `<number> <colour>` of a draw, read. */
  datatype Mention = Mention(colour: string, count: nat)

  function MentionOf(s: string): Mention
    requires WellFormedCube(s)
  {
    Mention(CubeColour(s), CubeCount(s))
  }

  /** The count a draw shows for `colour`: each mention overwrites the
      one before, and a colour never mentioned stays 0. */
  function ColourCount(mentions: seq<Mention>, colour: string): nat {
    if |mentions| == 0 then 0
    else
      var last := mentions[|mentions| - 1];
      if last.colour == colour then last.count
      else ColourCount(mentions[..|mentions| - 1], colour)
  }

  /** A colour no cube mentions counts 0. */
  lemma {:induction false} UnmentionedCountsZero(mentions: seq<Mention>, colour: string)
    requires forall i :: 0 <= i < |mentions| ==> mentions[i].colour != colour
    ensures ColourCount(mentions, colour) == 0
  {
    if |mentions| > 0 {
      var init := mentions[..|mentions| - 1];
      assert forall i :: 0 <= i < |init| ==> init[i].colour == mentions[i].colour;
      UnmentionedCountsZero(init, colour);
    }
  }

  /** Otherwise the last mention of the colour decides. */
  lemma {:induction false} LastMentionCounts(mentions: seq<Mention>, colour: string, i: nat)
    requires i < |mentions| && mentions[i].colour == colour
    requires forall j :: i < j < |mentions| ==> mentions[j].colour != colour
    ensures ColourCount(mentions, colour) == mentions[i].count
  {
    if i < |mentions| - 1 {
      var init := mentions[..|mentions| - 1];
      assert init[i] == mentions[i];
      assert forall j :: i < j < |init| ==> init[j].colour == mentions[j].colour;
      LastMentionCounts(init, colour, i);
    }
  }

  /** A draw, `<cube>, <cube>, ...`. */
  predicate WellFormedDraw(s: string) {
    AllWellFormedCubes(SplitStr(s, ", "))
  }

  /** The mentions of a draw, in order. */
  function MentionsOf(s: string): (mentions: seq<Mention>)
    requires WellFormedDraw(s)
  {
    var cubes := SplitStr(s, ", ");
    seq(|cubes|, i requires 0 <= i < |cubes| => MentionOf(cubes[i]))
  }

  /** The cubes a draw shows. */
  function DrawOf(s: string): Cubes
    requires WellFormedDraw(s)
  {
    var mentions := MentionsOf(s);
    Cubes(ColourCount(mentions, "red"), ColourCount(mentions, "green"), ColourCount(mentions, "blue"))
  }

  /** One arm of the `match` on the colour: the count replaces the one
      held for that colour. */
  function Assign(c: Cubes, m: Mention): Cubes {
    if m.colour == "red" then c.(r := m.count)
    else if m.colour == "green" then c.(g := m.count)
    else if m.colour == "blue" then c.(b := m.count)
    else c
  }

  /** The draw after the loop has seen `mentions`, from no cubes. */
  function Tally(mentions: seq<Mention>): Cubes {
    if |mentions| == 0 then Cubes(0, 0, 0)
    else Assign(Tally(mentions[..|mentions| - 1]), mentions[|mentions| - 1])
  }

  /** Assigning mention after mention leaves each colour with its last
      mention's count, or 0 when it has none. */
  lemma {:induction false} TallyIsLastMentions(mentions: seq<Mention>)
    ensures Tally(mentions) ==
              Cubes(ColourCount(mentions, "red"), ColourCount(mentions, "green"), ColourCount(mentions, "blue"))
  {
    if |mentions| > 0 {
      TallyIsLastMentions(mentions[..|mentions| - 1]);
    }
  }

  /** The draw loop of `parse_games`: `r`, `g` and `b` start at 0 and each
      `<number> <colour>` sets one of them. */
  method ParseDraw(valuesStr: string) returns (draw: Cubes)
    requires WellFormedDraw(valuesStr)
    ensures draw == DrawOf(valuesStr)
  {
    var cubes := SplitStr(valuesStr, ", ");
    ghost var mentions := MentionsOf(valuesStr);
    var r, g, b := 0, 0, 0;
    for k := 0 to |cubes|
      invariant Cubes(r, g, b) == Tally(mentions[..k])
    {
      PrefixSnoc(mentions, k);
      var parts := SplitOnce(cubes[k], ' ').value;
      var number := DecimalValue(parts.0);
      assert mentions[k] == Mention(parts.1, number);
      match parts.1
      case "red" => r := number;
      case "green" => g := number;
      case "blue" => b := number;
    }
    assert mentions[..|cubes|] == mentions;
    TallyIsLastMentions(mentions);
    draw := Cubes(r, g, b);
  }

  /** The text before `: ` ends in the id, a number. */
  predicate WellFormedId(left: string) {
    var words := Words(left);
    |words| > 0 && IsDecimal(words[|words| - 1])
  }

  /** The id: the last word before `: `. */
  function IdOf(left: string): nat
    requires WellFormedId(left)
  {
    var words := Words(left);
    DecimalValue(words[|words| - 1])
  }

  /** The text after `: `, `<draw>; <draw>; ...`. */
  predicate WellFormedDraws(right: string) {
    var drawStrs := SplitStr(right, "; ");
    forall i :: 0 <= i < |drawStrs| ==> WellFormedDraw(drawStrs[i])
  }

  /** The draws, in order. */
  function DrawsOf(right: string): seq<Cubes>
    requires WellFormedDraws(right)
  {
    var drawStrs := SplitStr(right, "; ");
    seq(|drawStrs|, i requires 0 <= i < |drawStrs| => DrawOf(drawStrs[i]))
  }

  /** `Game <id>: <draw>; <draw>; ...`. */
  predicate WellFormedGame(line: string) {
    var halves := SplitOnceStr(line, ": ");
    halves.Some? && WellFormedId(halves.value.0) && WellFormedDraws(halves.value.1)
  }

  /** The game a line describes. */
  function GameOf(line: string): Game
    requires WellFormedGame(line)
  {
    var halves := SplitOnceStr(line, ": ").value;
    Game(IdOf(halves.0), DrawsOf(halves.1))
  }

  /** The draws of a game, each read by the draw loop. */
  method ParseDraws(right: string) returns (values: seq<Cubes>)
    requires WellFormedDraws(right)
    ensures values == DrawsOf(right)
  {
    var drawStrs := SplitStr(right, "; ");
    ghost var expected := DrawsOf(right);
    values := [];
    for k := 0 to |drawStrs|
      invariant values == expected[..k]
    {
      var draw := ParseDraw(drawStrs[k]);
      assert draw == expected[k];
      PrefixSnoc(expected, k);
      values := values + [draw];
    }
    assert expected[..|drawStrs|] == expected;
  }

  /** One line of `parse_games`. */
  method ParseGame(line: string) returns (game: Game)
    requires WellFormedGame(line)
    ensures game == GameOf(line)
  {
    var halves := SplitOnceStr(line, ": ").value;
    var values := ParseDraws(halves.1);
    game := Game(IdOf(halves.0), values);
  }

  predicate WellFormedGames(input: string) {
    forall i :: 0 <= i < |Lines(input)| ==> WellFormedGame(Lines(input)[i])
  }

  /** The games of the input, one per line. */
  function GamesOf(input: string): (games: seq<Game>)
    requires WellFormedGames(input)
    ensures |games| == |Lines(input)|
  {
    var lines := Lines(input);
    seq(|lines|, i requires 0 <= i < |lines| => GameOf(lines[i]))
  }

  /** `parse_games`. */
  method ParseGames(input: string) returns (games: seq<Game>)
    requires WellFormedGames(input)
    ensures games == GamesOf(input)
  {
    var lines := Lines(input);
    ghost var expected := GamesOf(input);
    games := [];
    for k := 0 to |lines|
      invariant games == expected[..k]
    {
      var game := ParseGame(lines[k]);
      assert game == expected[k];
      PrefixSnoc(expected, k);
      games := games + [game];
    }
    assert expected[..|lines|] == expected;
  }

  /** `part_1`: the sum of the ids of the possible games. */
  method Part1(input: string) returns (result: nat)
    requires WellFormedGames(input)
    ensures result == IdSum(GamesOf(input))
  {
    var games := ParseGames(input);
    result := 0;
    for k := 0 to |games|
      invariant result == IdSum(games[..k])
    {
      IdSumStep(games, k);
      if IsGamePossible(games[k].draws) {
        result := result + games[k].id;
      }
    }
    assert games[..|games|] == games;
  }

  /** `part_2`: the sum of the powers of the minimum bags. */
  method Part2(input: string) returns (result: nat)
    requires WellFormedGames(input)
    ensures result == PowerSum(GamesOf(input))
  {
    var games := ParseGames(input);
    result := 0;
    for k := 0 to |games|
      invariant result == PowerSum(games[..k])
    {
      PowerSumStep(games, k);
      var minimum := MinimumCubesNeeded(games[k].draws);
      result := result + Power(minimum);
    }
    assert games[..|games|] == games;
  }

  // The sample games

  /** The five sample games, read by hand from their lines. */
  predicate IsSample(games: seq<Game>) {
    games == [
      Game(1, [Cubes(4, 0, 3), Cubes(1, 2, 6), Cubes(0, 2, 0)]),
      Game(2, [Cubes(0, 2, 1), Cubes(1, 3, 4), Cubes(0, 1, 1)]),
      Game(3, [Cubes(20, 8, 6), Cubes(4, 13, 5), Cubes(1, 5, 0)]),
      Game(4, [Cubes(3, 1, 6), Cubes(6, 3, 0), Cubes(14, 3, 15)]),
      Game(5, [Cubes(6, 3, 1), Cubes(1, 2, 2)])
    ]
  }

  /** Part 1 after one more game. */
  lemma IdSumStep(games: seq<Game>, k: nat)
    requires k < |games|
    ensures IdSum(games[..k + 1]) == IdSum(games[..k]) + (if IsGamePossible(games[k].draws) then games[k].id else 0)
  {
    assert games[..k + 1][..k] == games[..k];
  }

  /** Part 2 after one more game. */
  lemma PowerSumStep(games: seq<Game>, k: nat)
    requires k < |games|
    ensures PowerSum(games[..k + 1]) == PowerSum(games[..k]) + Power(Minimum(games[k].draws))
  {
    assert games[..k + 1][..k] == games[..k];
  }

  /** The minimum bag after one more draw. */
  lemma MinimumStep(draws: seq<Cubes>, k: nat)
    requires k < |draws|
    ensures var m := Minimum(draws[..k]);
      Minimum(draws[..k + 1]) == Cubes(Larger(m.r, draws[k].r), Larger(m.g, draws[k].g), Larger(m.b, draws[k].b))
  {
    assert draws[..k + 1][..k] == draws[..k];
  }

  /** The minimum bag of three draws. */
  lemma MinimumOfThree(draws: seq<Cubes>)
    requires |draws| == 3
    ensures Minimum(draws) == Cubes(Larger(Larger(draws[0].r, draws[1].r), draws[2].r),
                                    Larger(Larger(draws[0].g, draws[1].g), draws[2].g),
                                    Larger(Larger(draws[0].b, draws[1].b), draws[2].b))
  {
    assert draws[..0] == [];
    MinimumStep(draws, 0);
    MinimumStep(draws, 1);
    MinimumStep(draws, 2);
    assert draws[..3] == draws;
  }

  /** Games 1, 2 and 5 are possible: part 1 gives 8. */
  lemma SampleIdSum(games: seq<Game>)
    requires IsSample(games)
    ensures IdSum(games) == 8
  {
    assert games[..0] == [];
    IdSumStep(games, 0);
    IdSumStep(games, 1);
    IdSumStep(games, 2);
    IdSumStep(games, 3);
    IdSumStep(games, 4);
    assert games[..5] == games;
    SampleMinima(games);
  }

  /** Part 2 over five games adds up their five powers. */
  lemma PowerSumOfFive(games: seq<Game>)
    requires |games| == 5
    ensures PowerSum(games) == Power(Minimum(games[0].draws)) + Power(Minimum(games[1].draws)) +
              Power(Minimum(games[2].draws)) + Power(Minimum(games[3].draws)) + Power(Minimum(games[4].draws))
  {
    assert games[..0] == [];
    PowerSumStep(games, 0);
    PowerSumStep(games, 1);
    PowerSumStep(games, 2);
    PowerSumStep(games, 3);
    PowerSumStep(games, 4);
    assert games[..5] == games;
  }

  /** The minimum bags have powers 48, 12, 1560, 630 and 36: part 2 gives
      2286. */
  lemma SamplePowerSum(games: seq<Game>)
    requires IsSample(games)
    ensures PowerSum(games) == 2286
  {
    PowerSumOfFive(games);
    SampleMinima(games);
  }

  /** The minimum bags of the sample games. */
  lemma SampleMinima(games: seq<Game>)
    requires IsSample(games)
    ensures Minimum(games[0].draws) == Cubes(4, 2, 6)
    ensures Minimum(games[1].draws) == Cubes(1, 3, 4)
    ensures Minimum(games[2].draws) == Cubes(20, 13, 6)
    ensures Minimum(games[3].draws) == Cubes(14, 3, 15)
    ensures Minimum(games[4].draws) == Cubes(6, 3, 2)
  {
    MinimumOfThree(games[0].draws);
    MinimumOfThree(games[1].draws);
    MinimumOfThree(games[2].draws);
    MinimumOfThree(games[3].draws);
    var last := games[4].draws;
    assert last[..0] == [];
    MinimumStep(last, 0);
    MinimumStep(last, 1);
    assert last[..2] == last;
  }
}
