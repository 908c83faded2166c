/**
 * Lens library: the HASH algorithm over initialisation steps, and the
 * HASHMAP procedure that files lenses into 256 boxes and sums their
 * focusing power.
 */
module Day15 {
  import opened Wrappers
  import opened Text
  import opened Sums

  // ---------------------------------------------------------------------------
  // HASH
  // ---------------------------------------------------------------------------

  /** One character folded into the running hash. */
  function HashStep(h: nat, c: char): (h': nat)
    ensures h' < 256
  {
    ((h + c as int) * 17) % 256
  }

  /** The characters of `s`, first to last, folded into the running hash `h`. */
  function HashFrom(h: nat, s: string): (r: nat)
    ensures |s| == 0 ==> r == h
    ensures |s| > 0 ==> r < 256
    decreases |s|
  {
    if |s| == 0 then h else HashFrom(HashStep(h, s[0]), s[1..])
  }

  /** `calculate_hash`: the fold of `HashStep` over the text, starting at 0;
      always below 256, and 0 for the empty text. */
  function Hash(text: string): (h: nat)
    ensures h < 256
    ensures |text| == 0 ==> h == 0
  {
    HashFrom(0, text)
  }

  lemma {:induction false} HashFromAppend(h: nat, s: string, c: char)
    ensures HashFrom(h, s + [c]) == HashStep(HashFrom(h, s), c)
    decreases |s|
  {
    if |s| > 0 {
      assert (s + [c])[1..] == s[1..] + [c];
      HashFromAppend(HashStep(h, s[0]), s[1..], c);
    }
  }

  /** The hash of a text is below 256, is 0 for the empty text, and a longer
      text's hash is one more `HashStep` from the hash of its prefix. */
  lemma HashProperties(s: string, c: char)
    ensures Hash(s) < 256
    ensures Hash("") == 0
    ensures Hash(s + [c]) == HashStep(Hash(s), c)
  {
    HashFromAppend(0, s, c);
    if |s| > 0 {
      assert s == s[..|s| - 1] + [s[|s| - 1]];
      HashFromAppend(0, s[..|s| - 1], s[|s| - 1]);
    }
  }

  /** `parse_sequence`: the trimmed input split at commas. */
  function ParseSequence(input: string): (steps: seq<string>)
    ensures |steps| >= 1 && forall i :: 0 <= i < |steps| ==> ',' !in steps[i]
    ensures Join(steps, ',') == Trim(input)
  {
    SplitThenJoin(Trim(input), ',');
    Split(Trim(input), ',')
  }

  function SumOfHashes(steps: seq<string>): (r: nat)
    ensures r <= 255 * |steps|
  {
    if |steps| == 0 then 0
    else
      HashProperties(steps[|steps| - 1], ' ');
      SumOfHashes(steps[..|steps| - 1]) + Hash(steps[|steps| - 1])
  }

  /** `part_1`: the sum of the hashes of the steps. */
  function Part1(input: string): (r: nat)
    ensures r <= 255 * |ParseSequence(input)|
  {
    SumOfHashes(ParseSequence(input))
  }

  /** `rn=1` hashes to 30. */
  lemma HashRnEq1(s: string)
    requires s == "rn=1"
    ensures Hash(s) == 30
  {
    assert HashStep(0, s[0]) == 146;
    assert HashStep(146, s[1]) == 0;
    assert HashStep(0, s[2]) == 13;
    assert HashStep(13, s[3]) == 30;
    assert HashFrom(30, s[4..]) == 30;
    assert HashFrom(13, s[3..]) == 30;
    assert HashFrom(0, s[2..]) == 30;
    assert HashFrom(146, s[1..]) == 30;
    assert HashFrom(0, s[0..]) == 30;
  }

  /** `cm-` hashes to 253. */
  lemma HashCmDash(s: string)
    requires s == "cm-"
    ensures Hash(s) == 253
  {
    assert HashStep(0, s[0]) == 147;
    assert HashStep(147, s[1]) == 0;
    assert HashStep(0, s[2]) == 253;
    assert HashFrom(253, s[3..]) == 253;
    assert HashFrom(0, s[2..]) == 253;
    assert HashFrom(147, s[1..]) == 253;
    assert HashFrom(0, s[0..]) == 253;
  }

  /** `qp=3` hashes to 97. */
  lemma HashQpEq3(s: string)
    requires s == "qp=3"
    ensures Hash(s) == 97
  {
    assert HashStep(0, s[0]) == 129;
    assert HashStep(129, s[1]) == 1;
    assert HashStep(1, s[2]) == 30;
    assert HashStep(30, s[3]) == 97;
    assert HashFrom(97, s[4..]) == 97;
    assert HashFrom(30, s[3..]) == 97;
    assert HashFrom(1, s[2..]) == 97;
    assert HashFrom(129, s[1..]) == 97;
    assert HashFrom(0, s[0..]) == 97;
  }

  /** `cm=2` hashes to 47. */
  lemma HashCmEq2(s: string)
    requires s == "cm=2"
    ensures Hash(s) == 47
  {
    assert HashStep(0, s[0]) == 147;
    assert HashStep(147, s[1]) == 0;
    assert HashStep(0, s[2]) == 13;
    assert HashStep(13, s[3]) == 47;
    assert HashFrom(47, s[4..]) == 47;
    assert HashFrom(13, s[3..]) == 47;
    assert HashFrom(0, s[2..]) == 47;
    assert HashFrom(147, s[1..]) == 47;
    assert HashFrom(0, s[0..]) == 47;
  }

  /** `qp-` hashes to 14. */
  lemma HashQpDash(s: string)
    requires s == "qp-"
    ensures Hash(s) == 14
  {
    assert HashStep(0, s[0]) == 129;
    assert HashStep(129, s[1]) == 1;
    assert HashStep(1, s[2]) == 14;
    assert HashFrom(14, s[3..]) == 14;
    assert HashFrom(1, s[2..]) == 14;
    assert HashFrom(129, s[1..]) == 14;
    assert HashFrom(0, s[0..]) == 14;
  }

  /** `pc=4` hashes to 180. */
  lemma HashPcEq4(s: string)
    requires s == "pc=4"
    ensures Hash(s) == 180
  {
    assert HashStep(0, s[0]) == 112;
    assert HashStep(112, s[1]) == 3;
    assert HashStep(3, s[2]) == 64;
    assert HashStep(64, s[3]) == 180;
    assert HashFrom(180, s[4..]) == 180;
    assert HashFrom(64, s[3..]) == 180;
    assert HashFrom(3, s[2..]) == 180;
    assert HashFrom(112, s[1..]) == 180;
    assert HashFrom(0, s[0..]) == 180;
  }

  /** `ot=9` hashes to 9. */
  lemma HashOtEq9(s: string)
    requires s == "ot=9"
    ensures Hash(s) == 9
  {
    assert HashStep(0, s[0]) == 95;
    assert HashStep(95, s[1]) == 3;
    assert HashStep(3, s[2]) == 64;
    assert HashStep(64, s[3]) == 9;
    assert HashFrom(9, s[4..]) == 9;
    assert HashFrom(64, s[3..]) == 9;
    assert HashFrom(3, s[2..]) == 9;
    assert HashFrom(95, s[1..]) == 9;
    assert HashFrom(0, s[0..]) == 9;
  }

  /** `ab=5` hashes to 197. */
  lemma HashAbEq5(s: string)
    requires s == "ab=5"
    ensures Hash(s) == 197
  {
    assert HashStep(0, s[0]) == 113;
    assert HashStep(113, s[1]) == 3;
    assert HashStep(3, s[2]) == 64;
    assert HashStep(64, s[3]) == 197;
    assert HashFrom(197, s[4..]) == 197;
    assert HashFrom(64, s[3..]) == 197;
    assert HashFrom(3, s[2..]) == 197;
    assert HashFrom(113, s[1..]) == 197;
    assert HashFrom(0, s[0..]) == 197;
  }

  /** `pc-` hashes to 48. */
  lemma HashPcDash(s: string)
    requires s == "pc-"
    ensures Hash(s) == 48
  {
    assert HashStep(0, s[0]) == 112;
    assert HashStep(112, s[1]) == 3;
    assert HashStep(3, s[2]) == 48;
    assert HashFrom(48, s[3..]) == 48;
    assert HashFrom(3, s[2..]) == 48;
    assert HashFrom(112, s[1..]) == 48;
    assert HashFrom(0, s[0..]) == 48;
  }

  /** `pc=6` hashes to 214. */
  lemma HashPcEq6(s: string)
    requires s == "pc=6"
    ensures Hash(s) == 214
  {
    assert HashStep(0, s[0]) == 112;
    assert HashStep(112, s[1]) == 3;
    assert HashStep(3, s[2]) == 64;
    assert HashStep(64, s[3]) == 214;
    assert HashFrom(214, s[4..]) == 214;
    assert HashFrom(64, s[3..]) == 214;
    assert HashFrom(3, s[2..]) == 214;
    assert HashFrom(112, s[1..]) == 214;
    assert HashFrom(0, s[0..]) == 214;
  }

  /** `ot=7` hashes to 231. */
  lemma HashOtEq7(s: string)
    requires s == "ot=7"
    ensures Hash(s) == 231
  {
    assert HashStep(0, s[0]) == 95;
    assert HashStep(95, s[1]) == 3;
    assert HashStep(3, s[2]) == 64;
    assert HashStep(64, s[3]) == 231;
    assert HashFrom(231, s[4..]) == 231;
    assert HashFrom(64, s[3..]) == 231;
    assert HashFrom(3, s[2..]) == 231;
    assert HashFrom(95, s[1..]) == 231;
    assert HashFrom(0, s[0..]) == 231;
  }

  /** The example's steps: their hashes add up to 1320. */
  lemma SampleHashes(steps: seq<string>)
    requires steps == ["rn=1", "cm-", "qp=3", "cm=2", "qp-", "pc=4", "ot=9", "ab=5", "pc-", "pc=6", "ot=7"]
    ensures SumOfHashes(steps) == 1320
  {
    HashRnEq1(steps[0]);
    assert steps[..1][..0] == steps[..0];
    assert SumOfHashes(steps[..1]) == 30;
    HashCmDash(steps[1]);
    assert steps[..2][..1] == steps[..1];
    assert SumOfHashes(steps[..2]) == 283;
    HashQpEq3(steps[2]);
    assert steps[..3][..2] == steps[..2];
    assert SumOfHashes(steps[..3]) == 380;
    HashCmEq2(steps[3]);
    assert steps[..4][..3] == steps[..3];
    assert SumOfHashes(steps[..4]) == 427;
    HashQpDash(steps[4]);
    assert steps[..5][..4] == steps[..4];
    assert SumOfHashes(steps[..5]) == 441;
    HashPcEq4(steps[5]);
    assert steps[..6][..5] == steps[..5];
    assert SumOfHashes(steps[..6]) == 621;
    HashOtEq9(steps[6]);
    assert steps[..7][..6] == steps[..6];
    assert SumOfHashes(steps[..7]) == 630;
    HashAbEq5(steps[7]);
    assert steps[..8][..7] == steps[..7];
    assert SumOfHashes(steps[..8]) == 827;
    HashPcDash(steps[8]);
    assert steps[..9][..8] == steps[..8];
    assert SumOfHashes(steps[..9]) == 875;
    HashPcEq6(steps[9]);
    assert steps[..10][..9] == steps[..9];
    assert SumOfHashes(steps[..10]) == 1089;
    HashOtEq7(steps[10]);
    assert steps[..11][..10] == steps[..10];
    assert SumOfHashes(steps[..11]) == 1320;
    assert steps[..11] == steps;
  }

  // ---------------------------------------------------------------------------
  // Steps
  // ---------------------------------------------------------------------------

  /** A step the parser accepts: either it has no `=`, or what follows the
      first `=` is a decimal number. */
  predicate ValidStep(step: string) {
    match SplitOnce(step, '=')
      case None => true
      case Some(parts) => IsDecimal(parts.1)
  }

  /** `parse_step`: `name=N` gives the name and `Some(N)`; anything else is
      a removal, the name being the step without its trailing dashes. */
  function ParseStep(step: string): (r: (string, Option<nat>))
    requires ValidStep(step)
    ensures r.1.Some? <==> '=' in step
    ensures '=' !in r.0
  {
    var parts := SplitOnce(step, '=');
    if parts.Some? then
      (parts.value.0, Some(DecimalValue(parts.value.1)))
    else
      var name := TrimEndMatches(step, '-');
      assert name == step[..|name|];
      (name, None)
  }

  /** `name=N` is parsed back into the name and `N`. */
  lemma ParseAssignStep(name: string, n: nat)
    requires '=' !in name
    ensures ValidStep(name + ['='] + NatToDecimal(n))
    ensures ParseStep(name + ['='] + NatToDecimal(n)) == (name, Some(n))
  {
    var step := name + ['='] + NatToDecimal(n);
    assert step[|name|] == '=';
    assert step[..|name|] == name;
    var parts := SplitOnce(step, '=').value;
    assert parts.0 == name;
    assert parts.1 == NatToDecimal(n);
    DecimalRoundTrip(n);
  }

  /** `name-` is parsed back into the name and no focal length. */
  lemma ParseRemoveStep(name: string)
    requires '=' !in name && (|name| == 0 || name[|name| - 1] != '-')
    ensures ValidStep(name + ['-'])
    ensures ParseStep(name + ['-']) == (name, None)
  {
    var step := name + ['-'];
    assert step[..|name|] == name;
  }

  // ---------------------------------------------------------------------------
  // Boxes
  // ---------------------------------------------------------------------------

  datatype Lens = Lens(name: string, focal: nat)

  type Boxes = map<nat, seq<Lens>>

  /** `position`: the first slot holding a lens with this name. */
  function SlotOf(lenses: seq<Lens>, name: string): (r: Option<nat>)
    ensures r.Some? ==> r.value < |lenses| && lenses[r.value].name == name
    ensures r.Some? ==> forall j :: 0 <= j < r.value ==> lenses[j].name != name
    ensures r.None? <==> forall j :: 0 <= j < |lenses| ==> lenses[j].name != name
  {
    if |lenses| == 0 then None
    else if lenses[0].name == name then Some(0)
    else match SlotOf(lenses[1..], name)
      case None => None
      case Some(i) => Some(i + 1)
  }

  /** `retain`: the lenses whose name differs, in their order. */
  function Without(lenses: seq<Lens>, name: string): (r: seq<Lens>)
    ensures |r| <= |lenses|
    ensures forall j :: 0 <= j < |r| ==> r[j].name != name && r[j] in lenses
  {
    if |lenses| == 0 then []
    else if lenses[0].name == name then Without(lenses[1..], name)
    else [lenses[0]] + Without(lenses[1..], name)
  }

  /** Removing a name that no lens has changes nothing. */
  lemma {:induction false} WithoutAbsent(lenses: seq<Lens>, name: string)
    requires forall j :: 0 <= j < |lenses| ==> lenses[j].name != name
    ensures Without(lenses, name) == lenses
  {
    if |lenses| > 0 {
      WithoutAbsent(lenses[1..], name);
      assert lenses == [lenses[0]] + lenses[1..];
    }
  }

  /** Removing the name of exactly one lens cuts that lens out; the lenses on
      both sides of it keep their order. */
  lemma {:induction false} WithoutOnce(lenses: seq<Lens>, name: string, i: nat)
    requires i < |lenses| && lenses[i].name == name
    requires forall j :: 0 <= j < |lenses| && j != i ==> lenses[j].name != name
    ensures Without(lenses, name) == lenses[..i] + lenses[i + 1..]
  {
    if i == 0 {
      WithoutAbsent(lenses[1..], name);
    } else {
      var tail := lenses[1..];
      assert forall j :: 0 <= j < |tail| && j != i - 1 ==> tail[j].name != name by {
        forall j | 0 <= j < |tail| && j != i - 1
          ensures tail[j].name != name
        {
          assert tail[j] == lenses[j + 1];
        }
      }
      WithoutOnce(tail, name, i - 1);
      assert lenses[..i] == [lenses[0]] + tail[..i - 1];
      assert lenses[i + 1..] == tail[i..];
    }
  }

  /** The box of `name`, an empty one if it has not been opened yet
      (`entry(..).or_default()`). */
  function BoxOf(boxes: Boxes, b: nat): seq<Lens> {
    if b in boxes then boxes[b] else []
  }

  /** The update of one box: a focal length replaces the lens with that name
      in its slot or is appended, and a removal drops the lens with that
      name. */
  function UpdateBox(lenses: seq<Lens>, name: string, focal: Option<nat>): (r: seq<Lens>)
    ensures forall j :: 0 <= j < |r| ==> r[j].name == name || r[j] in lenses
  {
    match focal
      case Some(f) => (
        match SlotOf(lenses, name)
          case Some(i) => lenses[i := Lens(name, f)]
          case None => lenses + [Lens(name, f)])
      case None => Without(lenses, name)
  }

  /** One step of `part_2`: the box of the name is opened and updated. */
  function ApplyStep(boxes: Boxes, name: string, focal: Option<nat>): (r: Boxes)
    ensures r.Keys == boxes.Keys + {Hash(name)}
    ensures forall b :: b in boxes && b != Hash(name) ==> r[b] == boxes[b]
  {
    var b := Hash(name);
    boxes[b := UpdateBox(BoxOf(boxes, b), name, focal)]
  }

  /** No two lenses of a box share a name. */
  predicate DistinctNames(lenses: seq<Lens>) {
    forall i, j :: 0 <= i < j < |lenses| ==> lenses[i].name != lenses[j].name
  }

  /** Labels within each box are pairwise distinct, and every lens sits in the
      box its name hashes to. */
  ghost predicate WellFormed(boxes: Boxes) {
    forall b :: b in boxes ==>
      DistinctNames(boxes[b]) && forall i :: 0 <= i < |boxes[b]| ==> Hash(boxes[b][i].name) == b
  }

  /** An `=` step with a name already in its box puts the new focal length in
      that same slot and changes no other slot; otherwise the lens is added at
      the end. */
  lemma UpdateBoxAssign(lenses: seq<Lens>, name: string, f: nat)
    requires DistinctNames(lenses)
    ensures forall i :: 0 <= i < |lenses| && lenses[i].name == name ==>
      UpdateBox(lenses, name, Some(f)) == lenses[i := Lens(name, f)]
    ensures (forall i :: 0 <= i < |lenses| ==> lenses[i].name != name) ==>
      UpdateBox(lenses, name, Some(f)) == lenses + [Lens(name, f)]
    ensures DistinctNames(UpdateBox(lenses, name, Some(f)))
  {
    var r := UpdateBox(lenses, name, Some(f));
    match SlotOf(lenses, name) {
      case Some(k) =>
        assert r == lenses[k := Lens(name, f)];
      case None =>
        assert r == lenses + [Lens(name, f)];
    }
  }

  /** A `-` step removes the lens with that name, if any, and keeps the
      others in their order. */
  lemma UpdateBoxRemove(lenses: seq<Lens>, name: string)
    requires DistinctNames(lenses)
    ensures forall i :: 0 <= i < |lenses| && lenses[i].name == name ==>
      UpdateBox(lenses, name, None) == lenses[..i] + lenses[i + 1..]
    ensures (forall i :: 0 <= i < |lenses| ==> lenses[i].name != name) ==>
      UpdateBox(lenses, name, None) == lenses
    ensures DistinctNames(UpdateBox(lenses, name, None))
  {
    match SlotOf(lenses, name) {
      case Some(k) =>
        WithoutOnce(lenses, name, k);
      case None =>
        WithoutAbsent(lenses, name);
    }
    WithoutIsSubsequence(lenses, name);
  }

  /** Every step keeps the boxes well formed. */
  lemma ApplyStepWellFormed(boxes: Boxes, name: string, focal: Option<nat>)
    ensures WellFormed(boxes) ==> WellFormed(ApplyStep(boxes, name, focal))
  {
    if WellFormed(boxes) {
      var b := Hash(name);
      var lenses := BoxOf(boxes, b);
      match focal {
        case Some(f) => UpdateBoxAssign(lenses, name, f);
        case None => UpdateBoxRemove(lenses, name);
      }
      var r := UpdateBox(lenses, name, focal);
      forall j | 0 <= j < |r|
        ensures Hash(r[j].name) == b
      {
        if r[j].name != name {
          var k :| 0 <= k < |lenses| && lenses[k] == r[j];
        }
      }
    }
  }

  /** `Without` keeps lenses in their order: the result is the original with
      some slots left out. */
  lemma {:induction false} WithoutIsSubsequence(lenses: seq<Lens>, name: string)
    requires DistinctNames(lenses)
    ensures DistinctNames(Without(lenses, name))
  {
    if |lenses| > 0 {
      WithoutIsSubsequence(lenses[1..], name);
      var rest := Without(lenses[1..], name);
      assert forall j :: 0 <= j < |rest| ==> rest[j] in lenses[1..];
      assert forall j :: 0 <= j < |rest| ==> rest[j].name != lenses[0].name by {
        forall j | 0 <= j < |rest|
          ensures rest[j].name != lenses[0].name
        {
          var k :| 0 <= k < |lenses[1..]| && lenses[1..][k] == rest[j];
          assert lenses[k + 1] == rest[j];
        }
      }
    }
  }

  /** The steps, parsed and applied one after the other; any sequence of
      steps keeps the boxes well formed. */
  function ApplySteps(boxes: Boxes, steps: seq<string>): (result: Boxes)
    requires forall i :: 0 <= i < |steps| ==> ValidStep(steps[i])
    ensures WellFormed(boxes) ==> WellFormed(result)
  {
    if |steps| == 0 then boxes
    else
      var (name, focal) := ParseStep(steps[|steps| - 1]);
      var before := ApplySteps(boxes, steps[..|steps| - 1]);
      ApplyStepWellFormed(before, name, focal);
      ApplyStep(before, name, focal)
  }

  /** The `for_each` over the steps in `part_2`, filing the lenses into the
      boxes one step at a time. */
  method ArrangeLenses(steps: seq<string>) returns (boxes: Boxes)
    requires forall i :: 0 <= i < |steps| ==> ValidStep(steps[i])
    ensures boxes == ApplySteps(map[], steps)
    ensures WellFormed(boxes)
  {
    boxes := map[];
    for k := 0 to |steps|
      invariant boxes == ApplySteps(map[], steps[..k])
    {
      assert steps[..k + 1][..k] == steps[..k];
      var (name, focal) := ParseStep(steps[k]);
      var boxNumber := Hash(name);
      var lenses := BoxOf(boxes, boxNumber);
      match focal {
        case Some(f) =>
          var slot := SlotOf(lenses, name);
          if slot.Some? {
            lenses := lenses[slot.value := Lens(name, f)];
          } else {
            lenses := lenses + [Lens(name, f)];
          }
        case None =>
          lenses := Without(lenses, name);
      }
      boxes := boxes[boxNumber := lenses];
    }
    assert steps[..|steps|] == steps;
  }

  // ---------------------------------------------------------------------------
  // Focusing power
  // ---------------------------------------------------------------------------

  /** The focusing power of the first lenses of box `b`: lens `i` (from 0)
      contributes `(1 + b) * (i + 1) * focal`. */
  function LensesPower(b: nat, lenses: seq<Lens>): nat {
    if |lenses| == 0 then 0
    else LensesPower(b, lenses[..|lenses| - 1]) + (1 + b) * |lenses| * lenses[|lenses| - 1].focal
  }

  function BoxPower(boxes: Boxes): nat -> int {
    (b: nat) => LensesPower(b, BoxOf(boxes, b))
  }

  /** The focusing power of all boxes, summed in no particular order. */
  ghost function TotalPower(boxes: Boxes): int {
    SetSum(boxes.Keys, BoxPower(boxes))
  }

  /** The inner loop of `calculate_focusing_power`: the lenses of box `b` in
      slot order. */
  method BoxFocusingPower(b: nat, lenses: seq<Lens>) returns (power: nat)
    ensures power == LensesPower(b, lenses)
  {
    power := 0;
    for i := 0 to |lenses|
      invariant power == LensesPower(b, lenses[..i])
    {
      assert lenses[..i + 1][..i] == lenses[..i];
      var slotNumber := i + 1;
      power := power + (1 + b) * slotNumber * lenses[i].focal;
    }
    assert lenses[..|lenses|] == lenses;
  }

  /** `calculate_focusing_power`: iterates over the boxes in whatever order
      the map yields them and over the lenses of each in slot order. */
  method FocusingPower(boxes: Boxes) returns (result: nat)
    ensures result == TotalPower(boxes)
  {
    result := 0;
    var remaining := boxes.Keys;
    while remaining != {}
      invariant remaining <= boxes.Keys
      invariant result + SetSum(remaining, BoxPower(boxes)) == TotalPower(boxes)
      decreases |remaining|
    {
      var b :| b in remaining;
      SetSumRemove(remaining, BoxPower(boxes), b);
      var boxResult := BoxFocusingPower(b, boxes[b]);
      result := result + boxResult;
      remaining := remaining - {b};
    }
  }

  /** `part_2`: the focusing power after all steps of the input. */
  method Part2(input: string) returns (power: nat)
    requires forall i :: 0 <= i < |ParseSequence(input)| ==> ValidStep(ParseSequence(input)[i])
    ensures power == TotalPower(ApplySteps(map[], ParseSequence(input)))
  {
    var boxes := ArrangeLenses(ParseSequence(input));
    power := FocusingPower(boxes);
  }
}
