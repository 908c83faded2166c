/**
 * Day 8: walking a network of nodes, each with a left and a right
 * neighbour, by a cyclic list of `L`/`R` instructions. Part 1 counts the
 * steps from `AAA` to `ZZZ`; part 2 takes the least common multiple of the
 * step counts from every node ending in `A` to a node ending in `Z`.
 */
module Day08 {
  import opened Wrappers
  import opened Text

  // ---------------------------------------------------------------------
  // Divisibility, Euclid's algorithm and the least common multiple

  /** `d` divides `n`; zero divides only zero. */
  predicate Divides(d: nat, n: nat) {
    if d == 0 then n == 0 else n % d == 0
  }

  /** Euclid's algorithm, the specification of `greatest_common_divisor`:
      zero only for two zeros, and never above a positive `b`. */
  function Gcd(a: nat, b: nat): (g: nat)
    ensures g == 0 <==> a == 0 && b == 0
    ensures b > 0 ==> g <= b
    decreases b
  {
    if b == 0 then a else Gcd(b, a % b)
  }

  /** A multiple of `d` leaves no remainder. */
  lemma MultipleMod(d: nat, k: nat)
    requires d > 0
    ensures (d * k) % d == 0 && (d * k) / d == k
  {
    var q, r := (d * k) / d, (d * k) % d;
    assert d * k == d * q + r && 0 <= r < d;
    assert d * (k - q) == r;
    NoSmallMultiple(d, k - q, r);
  }

  /** The only multiple of `d` in `0..d` is zero. */
  lemma NoSmallMultiple(d: nat, t: int, r: int)
    requires d > 0 && d * t == r && 0 <= r < d
    ensures t == 0
  {
  }

  /** What divides `n` is a factor of it. */
  lemma DividesFactor(d: nat, n: nat)
    requires d > 0 && Divides(d, n)
    ensures n == d * (n / d)
  {
  }

  /** A multiple of `d` is divisible by it. */
  lemma DividesMultiple(d: nat, k: nat)
    ensures Divides(d, d * k)
  {
    if d > 0 {
      MultipleMod(d, k);
    }
  }

  /** A common divisor of `a` and `b` divides `a % b`, and one of `b` and
      `a % b` divides `a`: Euclid's step keeps the common divisors. */
  lemma CommonDivisorStep(d: nat, a: nat, b: nat)
    requires b > 0 && Divides(d, b)
    ensures Divides(d, a) <==> Divides(d, a % b)
  {
    DividesFactor(d, b);
    var kb := b / d;
    var q := a / b;
    assert a == b * q + a % b;
    assert b * q == d * (kb * q);
    if Divides(d, a) {
      DividesFactor(d, a);
      var ka := a / d;
      assert d * ka == d * (kb * q) + a % b;
      assert a % b == d * (ka - kb * q);
      assert d > 0;
      assert ka - kb * q >= 0;
      DividesMultiple(d, ka - kb * q);
    }
    if Divides(d, a % b) {
      DividesFactor(d, a % b);
      var kr := (a % b) / d;
      assert a == d * (kb * q + kr);
      DividesMultiple(d, kb * q + kr);
    }
  }

  /** `Gcd(a, b)` divides both `a` and `b`. */
  lemma {:induction false} GcdDividesBoth(a: nat, b: nat)
    ensures Divides(Gcd(a, b), a) && Divides(Gcd(a, b), b)
    decreases b
  {
    var g := Gcd(a, b);
    if b == 0 {
      DividesMultiple(a, 1);
    } else {
      GcdDividesBoth(b, a % b);
      CommonDivisorStep(g, a, b);
    }
  }

  /** Every common divisor of `a` and `b` divides `Gcd(a, b)`. */
  lemma {:induction false} GcdIsGreatest(a: nat, b: nat, d: nat)
    requires Divides(d, a) && Divides(d, b)
    ensures Divides(d, Gcd(a, b))
    decreases b
  {
    if b > 0 {
      CommonDivisorStep(d, a, b);
      GcdIsGreatest(b, a % b, d);
    }
  }

  /** `greatest_common_divisor`: Euclid's loop on `(a, b)`. */
  method GreatestCommonDivisor(a: nat, b: nat) returns (g: nat)
    ensures g == Gcd(a, b)
    ensures b == 0 ==> g == a
    ensures Divides(g, a) && Divides(g, b)
  {
    var x, y := a, b;
    while y != 0
      invariant Gcd(x, y) == Gcd(a, b)
      decreases y
    {
      x, y := y, x % y;
    }
    g := x;
    GcdDividesBoth(a, b);
  }

  /** `least_common_multiple`: `a * b / gcd(a, b)`, which divides by zero
      when both are zero. */
  function LeastCommonMultiple(a: nat, b: nat): (m: nat)
    requires a != 0 || b != 0
    ensures Divides(a, m) && Divides(b, m)
    ensures a > 0 && b > 0 ==> 0 < m <= a * b
  {
    var g := Gcd(a, b);
    GcdDividesBoth(a, b);
    assert g > 0;
    DividesFactor(g, a);
    DividesFactor(g, b);
    var ka, kb := a / g, b / g;
    assert a * b == g * (a * kb) by {
      assert a * b == a * (g * kb);
    }
    MultipleMod(g, a * kb);
    assert a * b / g == a * kb;
    assert a * kb == b * ka by {
      assert g * (a * kb) == g * (b * ka);
    }
    DividesMultiple(a, kb);
    DividesMultiple(b, ka);
    LcmBounds(a, b, ka, kb, g);
    a * b / g
  }

  /** With `a == g * ka` and `b == g * kb` both positive, `a * kb` lies
      between 1 and `a * b`. */
  lemma LcmBounds(a: nat, b: nat, ka: nat, kb: nat, g: nat)
    requires g > 0 && a == g * ka && b == g * kb
    ensures a > 0 && b > 0 ==> 0 < a * kb <= a * b
  {
    if a > 0 && b > 0 {
      assert kb > 0;
      assert kb <= b by {
        assert g * kb >= kb;
      }
      assert a * kb <= a * b;
    }
  }

  /** `reduce(least_common_multiple).unwrap()` over the step counts: none
      for no counts, where `unwrap` panics, or when two zeros meet, where
      the division panics. */
  function LcmAll(counts: seq<nat>): (r: Option<nat>)
    ensures r.Some? ==> |counts| > 0
    ensures r.Some? ==> forall i :: 0 <= i < |counts| ==> Divides(counts[i], r.value)
    ensures (|counts| > 0 && forall i :: 0 <= i < |counts| ==> counts[i] > 0) ==> r.Some? && r.value > 0
    decreases |counts|
  {
    if |counts| == 0 then None
    else if |counts| == 1 then
      DividesMultiple(counts[0], 1);
      Some(counts[0])
    else
      var init := counts[..|counts| - 1];
      var last := counts[|counts| - 1];
      assert forall i :: 0 <= i < |init| ==> init[i] == counts[i];
      match LcmAll(init)
        case None => None
        case Some(acc) =>
          if acc == 0 && last == 0 then None
          else
            var m := LeastCommonMultiple(acc, last);
            forall i | 0 <= i < |init|
              ensures Divides(counts[i], m)
            {
              DividesTransitive(counts[i], acc, m);
            }
            Some(m)
  }

  /** Two of the counts are zero. */
  predicate TwoZeros(counts: seq<nat>) {
    exists i, j :: 0 <= i < j < |counts| && counts[i] == 0 && counts[j] == 0
  }

  /** The reduction fails exactly for no counts or for two zero counts (the
      running multiple is zero from the first zero on, and meets the
      second); otherwise it is zero exactly when a count is. */
  lemma {:induction false} LcmAllFails(counts: seq<nat>)
    ensures LcmAll(counts).None? <==> |counts| == 0 || TwoZeros(counts)
    ensures LcmAll(counts).Some? ==> (LcmAll(counts).value == 0 <==> 0 in counts)
    decreases |counts|
  {
    if |counts| == 1 {
      assert counts[0] in counts;
    } else if |counts| >= 2 {
      var init, last := counts[..|counts| - 1], counts[|counts| - 1];
      LcmAllFails(init);
      assert counts == init + [last];
      if TwoZeros(counts) {
        var i, j :| 0 <= i < j < |counts| && counts[i] == 0 && counts[j] == 0;
        if j < |counts| - 1 {
          assert init[i] == 0 && init[j] == 0;
        } else {
          assert init[i] == 0;
        }
      }
      if TwoZeros(init) {
        var i, j :| 0 <= i < j < |init| && init[i] == 0 && init[j] == 0;
        assert counts[i] == 0 && counts[j] == 0;
      }
      if LcmAll(init).Some? && LcmAll(init).value == 0 && last == 0 {
        var i :| 0 <= i < |init| && init[i] == 0;
        assert counts[i] == 0 && counts[|counts| - 1] == 0;
      }
    }
  }

  /** Divisibility is transitive. */
  lemma DividesTransitive(a: nat, b: nat, c: nat)
    requires Divides(a, b) && Divides(b, c)
    ensures Divides(a, c)
  {
    if a > 0 && b > 0 {
      DividesFactor(a, b);
      DividesFactor(b, c);
      var k1, k2 := b / a, c / b;
      assert c == a * (k1 * k2);
      DividesMultiple(a, k1 * k2);
    }
  }

  // ---------------------------------------------------------------------
  // Walking the network

  /** Each node's left and right neighbours. */
  type Network = map<string, (string, string)>

  /** `node.ends_with(suffix)`. */
  predicate EndsWith(s: string, suffix: string) {
    |suffix| <= |s| && s[|s| - |suffix|..] == suffix
  }

  /** One step by `direction`; none where `network[node]` or the
      `panic!()` on any other character stops the program. */
  function Step(network: Network, node: string, direction: char): (r: Option<string>)
    ensures r.Some? <==> node in network && (direction == 'L' || direction == 'R')
    ensures r.Some? && direction == 'L' ==> r.value == network[node].0
    ensures r.Some? && direction == 'R' ==> r.value == network[node].1
  {
    if node !in network then None
    else if direction == 'L' then Some(network[node].0)
    else if direction == 'R' then Some(network[node].1)
    else None
  }

  /** The node reached after `k` steps through the cycled instructions,
      if no step has failed. */
  function NodeAfter(instructions: string, network: Network, start: string, k: nat): Option<string>
    requires |instructions| > 0
  {
    if k == 0 then Some(start)
    else match NodeAfter(instructions, network, start, k - 1)
      case None => None
      case Some(node) => Step(network, node, instructions[(k - 1) % |instructions|])
  }

  /** The walk passes `k` nodes without the suffix before it. */
  predicate WalksPast(instructions: string, network: Network, start: string, suffix: string, k: nat)
    requires |instructions| > 0
  {
    forall j :: 0 <= j < k ==>
      NodeAfter(instructions, network, start, j).Some? &&
      !EndsWith(NodeAfter(instructions, network, start, j).value, suffix)
  }

  /** The walk first reaches a node with the suffix after `n` steps. */
  predicate ArrivesAfter(instructions: string, network: Network, start: string, suffix: string, n: nat)
    requires |instructions| > 0
  {
    WalksPast(instructions, network, start, suffix, n) &&
    NodeAfter(instructions, network, start, n).Some? &&
    EndsWith(NodeAfter(instructions, network, start, n).value, suffix)
  }

  /** The first arrival is unique, so the step count is well defined. */
  lemma ArrivalIsUnique(instructions: string, network: Network, start: string, suffix: string, n: nat, m: nat)
    requires |instructions| > 0
    requires ArrivesAfter(instructions, network, start, suffix, n)
    requires ArrivesAfter(instructions, network, start, suffix, m)
    ensures n == m
  {

  }

  /** How a bounded walk ends: at a node with the suffix after `steps`
      steps, at a step that panics, or with its `fuel` spent. */
  datatype StepCount = Arrived(steps: nat) | Panicked | OutOfFuel

  /** What each outcome of a walk of at most `fuel` steps means: with no
      instructions the cycled iterator is empty and the count is zero;
      otherwise an arrival is the first one, a panic is a step from a
      missing node or by a bad direction before any arrival, and running
      out of fuel is passing `fuel + 1` nodes without the suffix. */
  ghost predicate WalkEnds(instructions: string, network: Network, start: string, suffix: string, fuel: nat, r: StepCount) {
    if |instructions| == 0 then r == Arrived(0)
    else match r
      case Arrived(n) => n <= fuel && ArrivesAfter(instructions, network, start, suffix, n)
      case Panicked =>
        exists k :: 0 < k <= fuel && WalksPast(instructions, network, start, suffix, k) &&
                    NodeAfter(instructions, network, start, k).None?
      case OutOfFuel => WalksPast(instructions, network, start, suffix, fuel + 1)
  }

  /** At most one outcome fits a walk. */
  lemma WalkEndsUnique(instructions: string, network: Network, start: string, suffix: string, fuel: nat, r1: StepCount, r2: StepCount)
    requires WalkEnds(instructions, network, start, suffix, fuel, r1)
    requires WalkEnds(instructions, network, start, suffix, fuel, r2)
    ensures r1 == r2
  {
    if |instructions| > 0 {
      if r1.Arrived? && r2.Arrived? {
        ArrivalIsUnique(instructions, network, start, suffix, r1.steps, r2.steps);
      }
    }
  }

  /** The walk from `node`, reached after `steps` steps: the recursive
      specification of `count_steps_for_node`'s loop. */
  function WalkFrom(instructions: string, network: Network, node: string, suffix: string, steps: nat, fuel: nat): StepCount
    requires |instructions| > 0 && steps <= fuel
    decreases fuel - steps
  {
    if EndsWith(node, suffix) then Arrived(steps)
    else if steps == fuel then OutOfFuel
    else match Step(network, node, instructions[steps % |instructions|])
      case None => Panicked
      case Some(next) => WalkFrom(instructions, network, next, suffix, steps + 1, fuel)
  }

  /** The rest of a walk ends as the whole walk is said to end. */
  lemma {:induction false} WalkFromEnds(instructions: string, network: Network, start: string, suffix: string, fuel: nat, node: string, steps: nat)
    requires |instructions| > 0 && steps <= fuel
    requires NodeAfter(instructions, network, start, steps) == Some(node)
    requires WalksPast(instructions, network, start, suffix, steps)
    ensures WalkEnds(instructions, network, start, suffix, fuel, WalkFrom(instructions, network, node, suffix, steps, fuel))
    decreases fuel - steps
  {
    if !EndsWith(node, suffix) {
      assert WalksPast(instructions, network, start, suffix, steps + 1);
      if steps < fuel {
        var next := Step(network, node, instructions[steps % |instructions|]);
        assert NodeAfter(instructions, network, start, steps + 1) == next;
        if next.Some? {
          WalkFromEnds(instructions, network, start, suffix, fuel, next.value, steps + 1);
        }
      }
    }
  }

  /** The outcome of a walk of at most `fuel` steps from `start`. */
  function Walk(instructions: string, network: Network, start: string, suffix: string, fuel: nat): (r: StepCount)
    ensures WalkEnds(instructions, network, start, suffix, fuel, r)
  {
    if |instructions| == 0 then Arrived(0)
    else
      WalkFromEnds(instructions, network, start, suffix, fuel, start, 0);
      WalkFrom(instructions, network, start, suffix, 0, fuel)
  }

  /** `count_steps_for_node`: the walk stops before the first step taken
      from a node ending with `suffix`. The source loops forever on a walk
      that never arrives; this one takes at most `fuel` steps. */
  method CountStepsForNode(instructions: string, network: Network, start: string, suffix: string, fuel: nat)
    returns (r: StepCount)
    ensures r == Walk(instructions, network, start, suffix, fuel)
    ensures WalkEnds(instructions, network, start, suffix, fuel, r)
  {
    if |instructions| == 0 {
      return Arrived(0);
    }
    var node := start;
    var steps := 0;
    while !EndsWith(node, suffix)
      invariant steps <= fuel
      invariant WalkFrom(instructions, network, node, suffix, steps, fuel) == Walk(instructions, network, start, suffix, fuel)
      decreases fuel - steps
    {
      if steps == fuel {
        return OutOfFuel;
      }
      var direction := instructions[steps % |instructions|];
      var next := Step(network, node, direction);
      if next.None? {
        return Panicked;
      }
      node := next.value;
      steps := steps + 1;
    }
    return Arrived(steps);
  }

  // ---------------------------------------------------------------------
  // Parsing and the two parts

  /** Part 1 walks from `AAA` to `ZZZ`; part 2 from every node ending with
      `A` to any node ending with `Z`. */
  const StartNode: string := "AAA"
  const EndNode: string := "ZZZ"
  const StartSuffix: string := "A"
  const EndSuffix: string := "Z"

  /** Every line is long enough for `parse_map` to slice: a network line
      `AAA = (BBB, CCC)` has its node at columns 0..3 and its neighbours at
      7..10 and 12..15. */
  predicate AllNodeLines(lines: seq<string>) {
    forall i :: 0 <= i < |lines| ==> |lines[i]| >= 15
  }

  function NodeName(line: string): string
    requires |line| >= 15
  {
    line[0..3]
  }

  function Neighbours(line: string): (string, string)
    requires |line| >= 15
  {
    (line[7..10], line[12..15])
  }

  /** `collect` of the node lines into a `HashMap`, inserting line by
      line. */
  function NetworkOf(lines: seq<string>): Network
    requires AllNodeLines(lines)
  {
    if |lines| == 0 then map[]
    else
      var last := lines[|lines| - 1];
      NetworkOf(lines[..|lines| - 1])[NodeName(last) := Neighbours(last)]
  }

  /** The network's nodes are exactly the nodes named on the lines. */
  lemma {:induction false} NetworkOfNodes(lines: seq<string>)
    requires AllNodeLines(lines)
    ensures forall i :: 0 <= i < |lines| ==> NodeName(lines[i]) in NetworkOf(lines)
    ensures forall node :: node in NetworkOf(lines) ==> exists i :: 0 <= i < |lines| && NodeName(lines[i]) == node
  {
    if |lines| > 0 {
      var init := lines[..|lines| - 1];
      NetworkOfNodes(init);
      assert forall i :: 0 <= i < |init| ==> init[i] == lines[i];
    }
  }

  /** A node named on several lines keeps the neighbours of the last one. */
  lemma {:induction false} NetworkOfLastLineWins(lines: seq<string>, i: nat)
    requires AllNodeLines(lines) && i < |lines|
    requires forall j :: i < j < |lines| ==> NodeName(lines[j]) != NodeName(lines[i])
    ensures NodeName(lines[i]) in NetworkOf(lines)
    ensures NetworkOf(lines)[NodeName(lines[i])] == Neighbours(lines[i])
  {
    NetworkOfNodes(lines);
    if i < |lines| - 1 {
      var init := lines[..|lines| - 1];
      assert init[i] == lines[i];
      assert forall j :: i < j < |init| ==> init[j] == lines[j];
      NetworkOfLastLineWins(init, i);
    }
  }

  /** `parse_map`: the instructions on the first line, one line skipped,
      then the network; none for an empty input or a short node line, where
      the source panics. */
  function ParseMap(input: string): (r: Option<(string, Network)>)
    ensures r.Some? <==> |Lines(input)| > 0 && AllNodeLines(NodeLines(Lines(input)))
    ensures r.Some? ==> r.value.0 == Lines(input)[0]
    ensures r.Some? ==> r.value.1 == NetworkOf(NodeLines(Lines(input)))
  {
    var lines := Lines(input);
    if |lines| == 0 || !AllNodeLines(NodeLines(lines)) then None
    else Some((lines[0], NetworkOf(NodeLines(lines))))
  }

  /** The lines after the instructions and the line `parse_map` skips. */
  function NodeLines(lines: seq<string>): seq<string> {
    if |lines| >= 2 then lines[2..] else []
  }

  /** `part_1`: the steps from `AAA` to `ZZZ`. */
  method Part1(input: string, fuel: nat) returns (r: StepCount)
    ensures ParseMap(input).None? ==> r == Panicked
    ensures ParseMap(input).Some? ==> r == Walk(ParseMap(input).value.0, ParseMap(input).value.1, StartNode, EndNode, fuel)
    ensures ParseMap(input).Some? ==> WalkEnds(ParseMap(input).value.0, ParseMap(input).value.1, StartNode, EndNode, fuel, r)
    ensures ParseMap(input).Some? && |ParseMap(input).value.0| > 0 && r.Arrived? ==>
              ArrivesAfter(ParseMap(input).value.0, ParseMap(input).value.1, StartNode, EndNode, r.steps)
  {
    match ParseMap(input)
      case None =>
        r := Panicked;
      case Some((instructions, network)) =>
        r := CountStepsForNode(instructions, network, StartNode, EndNode, fuel);
  }

  /** The nodes ending with `A`, listed without repetition in the order the
      map's keys are visited; that order is not modelled and is a
      parameter. */
  predicate ListsStartNodes(order: seq<string>, network: Network) {
    (forall i :: 0 <= i < |order| ==> order[i] in network && EndsWith(order[i], StartSuffix)) &&
    (forall node :: node in network && EndsWith(node, StartSuffix) ==> node in order) &&
    (forall i, j :: 0 <= i < j < |order| ==> order[i] != order[j])
  }

  /** Every walk from a start node arrives within the fuel. */
  predicate AllArrive(instructions: string, network: Network, order: seq<string>, fuel: nat) {
    forall i :: 0 <= i < |order| ==> Walk(instructions, network, order[i], EndSuffix, fuel).Arrived?
  }

  /** The step counts of the walks from the start nodes, in order. */
  function ArrivalCounts(instructions: string, network: Network, order: seq<string>, fuel: nat): (counts: seq<nat>)
    requires AllArrive(instructions, network, order, fuel)
    ensures |counts| == |order|
    ensures forall i :: 0 <= i < |order| ==> Walk(instructions, network, order[i], EndSuffix, fuel) == Arrived(counts[i])
  {
    seq(|order|, i requires 0 <= i < |order| => Walk(instructions, network, order[i], EndSuffix, fuel).steps)
  }

  /** The step counts from every start node to a node ending with `Z`,
      reduced by `least_common_multiple`; none when a walk panics or runs
      out of fuel, and as `LcmAll` says. */
  method StepsToAllEnds(instructions: string, network: Network, order: seq<string>, fuel: nat)
    returns (r: Option<nat>)
    ensures r.None? <==>
              !AllArrive(instructions, network, order, fuel) ||
              LcmAll(ArrivalCounts(instructions, network, order, fuel)).None?
    ensures r.Some? ==> r == LcmAll(ArrivalCounts(instructions, network, order, fuel))
    ensures r.Some? ==> |order| > 0
    ensures r.Some? && |instructions| > 0 ==> MultipleOfAllWalks(instructions, network, order, r.value)
  {
    var counts: seq<nat> := [];
    for i := 0 to |order|
      invariant |counts| == i
      invariant forall k :: 0 <= k < i ==> Walk(instructions, network, order[k], EndSuffix, fuel) == Arrived(counts[k])
    {
      var count := CountStepsForNode(instructions, network, order[i], EndSuffix, fuel);
      if !count.Arrived? {
        return None;
      }
      counts := counts + [count.steps];
    }
    assert counts == ArrivalCounts(instructions, network, order, fuel);
    r := LcmAll(counts);
    if r.Some? && |instructions| > 0 {
      forall i | 0 <= i < |order|
        ensures exists n :: ArrivesAfter(instructions, network, order[i], EndSuffix, n) && Divides(n, r.value)
      {
        assert WalkEnds(instructions, network, order[i], EndSuffix, fuel, Arrived(counts[i]));
        assert Divides(counts[i], r.value);
      }
    }
  }

  /** Every walk from a start node arrives, after a number of steps that
      divides `m`. */
  ghost predicate MultipleOfAllWalks(instructions: string, network: Network, starts: seq<string>, m: nat)
    requires |instructions| > 0
  {
    forall i :: 0 <= i < |starts| ==>
      exists n :: ArrivesAfter(instructions, network, starts[i], EndSuffix, n) && Divides(n, m)
  }

  /** `part_2`: every node ending with `A` walked to a node ending with `Z`,
      the counts combined by their least common multiple, which is a common
      multiple of all of them. */
  method Part2(input: string, order: seq<string>, fuel: nat) returns (r: Option<nat>)
    requires ParseMap(input).Some? ==> ListsStartNodes(order, ParseMap(input).value.1)
    ensures r.None? <==>
              ParseMap(input).None? ||
              var (instructions, network) := ParseMap(input).value;
              !AllArrive(instructions, network, order, fuel) ||
              LcmAll(ArrivalCounts(instructions, network, order, fuel)).None?
    ensures r.Some? ==> r == LcmAll(ArrivalCounts(ParseMap(input).value.0, ParseMap(input).value.1, order, fuel))
    ensures r.Some? ==> ParseMap(input).Some? && |order| > 0
    ensures r.Some? && |ParseMap(input).value.0| > 0 ==>
              MultipleOfAllWalks(ParseMap(input).value.0, ParseMap(input).value.1, order, r.value)
  {
    var parsed := ParseMap(input);
    if parsed.None? {
      return None;
    }
    var (instructions, network) := parsed.value;
    r := StepsToAllEnds(instructions, network, order, fuel);
  }
}
