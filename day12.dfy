/**
 * Hot springs: a row of springs is operational `.`, damaged `#` or unknown
 * `?`, and the sizes of the contiguous groups of damaged springs are given.
 * The number of arrangements is found by trying every way of filling the
 * unknowns with the missing number of damaged springs.
 */
module Day12 {
  import opened Wrappers
  import Text
  const Damaged: char := '#'
  const Operational: char := '.'
  const Unknown: char := '?'

  /** The number of times `c` occurs in `s`. */
  function Count(s: seq<char>, c: char): (n: nat)
    ensures n <= |s|
  {
    if |s| == 0 then 0 else Count(s[..|s| - 1], c) + (if s[|s| - 1] == c then 1 else 0)
  }

  lemma {:induction false} CountAppend(s: seq<char>, t: seq<char>, c: char)
    ensures Count(s + t, c) == Count(s, c) + Count(t, c)
  {
    if |t| == 0 {
      assert s + t == s;
    } else {
      CountAppend(s, t[..|t| - 1], c);
      assert (s + t)[..|s + t| - 1] == s + t[..|t| - 1];
    }
  }

  /** `c` does not occur exactly when it is counted zero times. */
  lemma {:induction false} CountZero(s: seq<char>, c: char)
    ensures Count(s, c) == 0 <==> c !in s
  {
    if |s| > 0 {
      CountZero(s[..|s| - 1], c);
      assert s == s[..|s| - 1] + [s[|s| - 1]];
    }
  }

  lemma SplitLast<T>(s: seq<T>)
    requires |s| > 0
    ensures s == s[..|s| - 1] + [s[|s| - 1]]
  {
  }

  /** `n` copies of `x`. */
  function Replicate(x: char, n: nat): (r: seq<char>)
    ensures |r| == n
  {
    seq(n, _ => x)
  }

  // ---------------------------------------------------------------------------
  // Fillings of the unknowns
  // ---------------------------------------------------------------------------

  /** A filling of `n` unknowns with `k` damaged springs. */
  predicate IsFilling(p: seq<char>, n: nat, k: nat) {
    |p| == n && (forall i :: 0 <= i < n ==> p[i] == Damaged || p[i] == Operational) && Count(p, Damaged) == k
  }

  ghost predicate AllFillings(ps: seq<seq<char>>, n: nat, k: nat) {
    forall p :: p in ps ==> IsFilling(p, n, k)
  }

  ghost predicate Distinct(ps: seq<seq<char>>) {
    forall i, j :: 0 <= i < j < |ps| ==> ps[i] != ps[j]
  }

  /** The binomial coefficient, by Pascal's rule. */
  function Binomial(n: nat, k: nat): nat {
    if k > n then 0 else if k == 0 || k == n then 1 else Binomial(n - 1, k - 1) + Binomial(n - 1, k)
  }

  /** Each of `ps` with `c` pushed onto its end. */
  function AppendToAll(ps: seq<seq<char>>, c: char): (r: seq<seq<char>>)
    ensures |r| == |ps|
    ensures forall i :: 0 <= i < |r| ==> r[i] == ps[i] + [c]
  {
    seq(|ps|, i requires 0 <= i < |ps| => ps[i] + [c])
  }

  /** `get_unknowns_permutations`: every filling of `n` unknowns with exactly
      `k` damaged springs, each once, those ending in `#` first; there are
      `Binomial(n, k)` of them. */
  function Permutations(n: nat, k: nat): (ps: seq<seq<char>>)
    ensures |ps| == Binomial(n, k)
    ensures AllFillings(ps, n, k)
    ensures Distinct(ps)
  {
    if k > n then []
    else if n == 0 then [[]]
    else if k == 0 then
      CountReplicate(Operational, n, Damaged);
      [Replicate(Operational, n)]
    else
      var a, b := Permutations(n - 1, k - 1), Permutations(n - 1, k);
      ExtendFillings(a, b, n, k);
      ExtendDistinct(a, b);
      AppendToAll(a, Damaged) + AppendToAll(b, Operational)
  }

  /** Pushing `#` onto fillings with `k - 1` damaged springs and `.` onto
      fillings with `k` gives fillings of one more unknown with `k`. */
  lemma ExtendFillings(a: seq<seq<char>>, b: seq<seq<char>>, n: nat, k: nat)
    requires 0 < k <= n
    requires AllFillings(a, n - 1, k - 1) && AllFillings(b, n - 1, k)
    ensures AllFillings(AppendToAll(a, Damaged) + AppendToAll(b, Operational), n, k)
  {
    var ps := AppendToAll(a, Damaged) + AppendToAll(b, Operational);
    forall p | p in ps
      ensures IsFilling(p, n, k)
    {
      var i :| 0 <= i < |ps| && ps[i] == p;
      if i < |a| {
        assert a[i] in a;
        AppendFilling(a[i], n - 1, k - 1, Damaged);
      } else {
        assert b[i - |a|] in b;
        AppendFilling(b[i - |a|], n - 1, k, Operational);
      }
    }
  }

  /** A filling with one more value at its end is a filling of one more
      unknown. */
  lemma AppendFilling(p: seq<char>, n: nat, k: nat, c: char)
    requires IsFilling(p, n, k) && (c == Damaged || c == Operational)
    ensures IsFilling(p + [c], n + 1, if c == Damaged then k + 1 else k)
  {
    CountAppend(p, [c], Damaged);
    CountReplicate(c, 1, Damaged);
    assert Replicate(c, 1) == [c];
  }

  /** Pushing a value keeps distinct sequences distinct, and pushing two
      different values makes any two sequences different. */
  lemma ExtendDistinct(a: seq<seq<char>>, b: seq<seq<char>>)
    requires Distinct(a) && Distinct(b)
    ensures Distinct(AppendToAll(a, Damaged) + AppendToAll(b, Operational))
  {
    var ps := AppendToAll(a, Damaged) + AppendToAll(b, Operational);
    forall i, j | 0 <= i < j < |ps|
      ensures ps[i] != ps[j]
    {
      if ps[i] == ps[j] {
        if j < |a| {
          AppendInjective(a[i], a[j], Damaged, Damaged);
        } else if i >= |a| {
          AppendInjective(b[i - |a|], b[j - |a|], Operational, Operational);
        } else {
          AppendInjective(a[i], b[j - |a|], Damaged, Operational);
        }
      }
    }
  }

  lemma AppendInjective(x: seq<char>, y: seq<char>, c: char, d: char)
    requires x + [c] == y + [d]
    ensures x == y && c == d
  {
    assert x == (x + [c])[..|x|];
    assert y == (y + [d])[..|y|];
  }

  /** Every filling of `n` unknowns with `k` damaged springs is a result. */
  lemma {:induction false} PermutationsComplete(p: seq<char>, n: nat, k: nat)
    requires IsFilling(p, n, k)
    ensures p in Permutations(n, k)
  {
    if n == 0 {
      assert p == [];
    } else if k == 0 {
      AllOperational(p, n);
    } else {
      FillingInit(p, n, k);
      PermutationsComplete(p[..n - 1], n - 1, if p[n - 1] == Damaged then k - 1 else k);
      CompleteStep(p, n, k);
    }
  }

  /** The step of the induction: a filling is a result when it is without
      its last value. */
  lemma CompleteStep(p: seq<char>, n: nat, k: nat)
    requires IsFilling(p, n, k) && 0 < k <= n
    requires p[n - 1] == Damaged || p[n - 1] == Operational
    requires p[..n - 1] in Permutations(n - 1, if p[n - 1] == Damaged then k - 1 else k)
    ensures p in Permutations(n, k)
  {
    SplitLast(p);
    PermutationsSplit(n, k);
    ExtendMember(Permutations(n - 1, k - 1), Permutations(n - 1, k), p[..n - 1], p[n - 1]);
  }

  lemma PermutationsSplit(n: nat, k: nat)
    requires 0 < k <= n
    ensures Permutations(n, k) == AppendToAll(Permutations(n - 1, k - 1), Damaged) + AppendToAll(Permutations(n - 1, k), Operational)
  {
  }

  /** Without damaged springs the only filling is all operational. */
  lemma AllOperational(p: seq<char>, n: nat)
    requires IsFilling(p, n, 0)
    ensures p == Replicate(Operational, n)
    ensures p in Permutations(n, 0)
  {
    CountZero(p, Damaged);
    forall i | 0 <= i < n
      ensures p[i] == Operational
    {
      assert p[i] in p;
    }
  }

  /** A filling without its last value is a filling of one fewer unknown. */
  lemma FillingInit(p: seq<char>, n: nat, k: nat)
    requires IsFilling(p, n, k) && n > 0
    ensures p[n - 1] == Damaged || p[n - 1] == Operational
    ensures IsFilling(p[..n - 1], n - 1, if p[n - 1] == Damaged then k - 1 else k)
  {
    SplitLast(p);
    CountAppend(p[..n - 1], [p[n - 1]], Damaged);
    CountReplicate(p[n - 1], 1, Damaged);
    assert Replicate(p[n - 1], 1) == [p[n - 1]];
  }

  /** A member of `a` with `#` pushed, or of `b` with `.` pushed, is in the
      combined list. */
  lemma ExtendMember(a: seq<seq<char>>, b: seq<seq<char>>, init: seq<char>, c: char)
    requires (c == Damaged && init in a) || (c == Operational && init in b)
    ensures init + [c] in AppendToAll(a, Damaged) + AppendToAll(b, Operational)
  {
    var ps := AppendToAll(a, Damaged) + AppendToAll(b, Operational);
    if c == Damaged {
      var i :| 0 <= i < |a| && a[i] == init;
      assert ps[i] == init + [c];
    } else {
      var i :| 0 <= i < |b| && b[i] == init;
      assert ps[|a| + i] == init + [c];
    }
  }

  // ---------------------------------------------------------------------------
  // Run-length encoding
  // ---------------------------------------------------------------------------

  /** A run of `length` equal values. */
  datatype Run = Run(value: char, length: nat)

  /** One step of the fold in `count_repeated_values`: a value equal to that
      of the last run lengthens it, any other starts a new run of one. */
  function Step(runs: seq<Run>, x: char): seq<Run> {
    if |runs| > 0 && runs[|runs| - 1].value == x
    then runs[..|runs| - 1] + [Run(x, runs[|runs| - 1].length + 1)]
    else runs + [Run(x, 1)]
  }

  /** `count_repeated_values`: each maximal run of equal values, by a left
      fold of `Step` over the values. */
  function Runs(values: seq<char>): (runs: seq<Run>)
    ensures |runs| <= |values|
    ensures |values| > 0 ==> |runs| > 0 && runs[|runs| - 1].value == values[|values| - 1]
  {
    if |values| == 0 then [] else Step(Runs(values[..|values| - 1]), values[|values| - 1])
  }

  /** Runs with positive lengths, no two neighbours holding the same value. */
  ghost predicate WellFormedRuns(runs: seq<Run>) {
    (forall i :: 0 <= i < |runs| ==> runs[i].length >= 1) &&
    (forall i, j :: 0 <= i < j < |runs| && j == i + 1 ==> runs[i].value != runs[j].value)
  }

  /** The values the runs stand for, run after run. */
  function Expand(runs: seq<Run>): seq<char> {
    if |runs| == 0 then [] else Expand(runs[..|runs| - 1]) + Replicate(runs[|runs| - 1].value, runs[|runs| - 1].length)
  }

  lemma RunsSnoc(init: seq<char>, x: char)
    ensures Runs(init + [x]) == Step(Runs(init), x)
  {
    assert (init + [x])[..|init|] == init;
  }

  /** The encoding is well formed, is empty only for no values, and its
      last run holds the last value. */
  lemma {:induction false} RunsWellFormed(values: seq<char>)
    ensures WellFormedRuns(Runs(values))
    ensures |values| > 0 <==> |Runs(values)| > 0
    ensures |values| > 0 ==> Runs(values)[|Runs(values)| - 1].value == values[|values| - 1]
  {
    if |values| > 0 {
      RunsWellFormed(values[..|values| - 1]);
      StepWellFormed(Runs(values[..|values| - 1]), values[|values| - 1]);
    }
  }

  /** A step keeps the runs well formed and ends them with the new value. */
  lemma StepWellFormed(runs: seq<Run>, x: char)
    requires WellFormedRuns(runs)
    ensures WellFormedRuns(Step(runs, x))
    ensures |Step(runs, x)| > 0 && Step(runs, x)[|Step(runs, x)| - 1].value == x
  {
    var r' := Step(runs, x);
    assert forall i :: 0 <= i < |runs| - 1 ==> r'[i] == runs[i];
  }

  /** Expanding the encoding gives back the input. */
  lemma {:induction false} RunsExpand(values: seq<char>)
    ensures Expand(Runs(values)) == values
  {
    if |values| > 0 {
      var init, x := values[..|values| - 1], values[|values| - 1];
      assert values == init + [x];
      RunsExpand(init);
      StepExpand(Runs(init), x);
    }
  }

  /** A step appends its value to the expansion. */
  lemma StepExpand(runs: seq<Run>, x: char)
    ensures Expand(Step(runs, x)) == Expand(runs) + [x]
  {
    if |runs| > 0 && runs[|runs| - 1].value == x {
      var n := runs[|runs| - 1].length;
      assert runs == runs[..|runs| - 1] + [Run(x, n)];
      ExpandLonger(runs[..|runs| - 1], x, n);
    } else {
      ExpandSnoc(runs, Run(x, 1));
      assert Replicate(x, 1) == [x];
    }
  }

  /** Expanding one more run appends its values. */
  lemma ExpandSnoc(runs: seq<Run>, run: Run)
    ensures Expand(runs + [run]) == Expand(runs) + Replicate(run.value, run.length)
  {
    assert (runs + [run])[..|runs|] == runs;
  }

  /** Lengthening the last run by one appends one more of its value. */
  lemma ExpandLonger(init: seq<Run>, x: char, n: nat)
    ensures Expand(init + [Run(x, n + 1)]) == Expand(init + [Run(x, n)]) + [x]
  {
    ExpandSnoc(init, Run(x, n + 1));
    ExpandSnoc(init, Run(x, n));
    assert Replicate(x, n + 1) == Replicate(x, n) + [x];
  }

  /** Conversely, well-formed runs are the encoding of their expansion. */
  lemma {:induction false} ExpandRuns(runs: seq<Run>)
    requires WellFormedRuns(runs)
    ensures Runs(Expand(runs)) == runs
  {
    if |runs| > 0 {
      var init, last := runs[..|runs| - 1], runs[|runs| - 1];
      assert WellFormedRuns(init);
      ExpandRuns(init);
      assert runs == init + [last];
      ExpandSnoc(init, last);
      ExpandAppend(Expand(init), last.value, last.length, init);
    }
  }

  /** Appending a run of `n >= 1` copies of `x` to values whose encoding
      `init` does not end in `x` appends `Run(x, n)` to the encoding. */
  lemma {:induction false} ExpandAppend(values: seq<char>, x: char, n: nat, init: seq<Run>)
    requires n >= 1 && Runs(values) == init
    requires |init| > 0 ==> init[|init| - 1].value != x
    ensures Runs(values + Replicate(x, n)) == init + [Run(x, n)]
  {
    if n > 1 {
      ExpandAppend(values, x, n - 1, init);
      ExpandAppendStep(values, x, n - 1, init);
    } else {
      ExpandAppendFirst(values, x, init);
    }
  }

  lemma ExpandAppendFirst(values: seq<char>, x: char, init: seq<Run>)
    requires Runs(values) == init
    requires |init| > 0 ==> init[|init| - 1].value != x
    ensures Runs(values + Replicate(x, 1)) == init + [Run(x, 1)]
  {
    assert values + Replicate(x, 1) == values + [x];
    RunsSnoc(values, x);
    StepNew(init, x);
  }

  lemma ExpandAppendStep(values: seq<char>, x: char, m: nat, init: seq<Run>)
    requires Runs(values + Replicate(x, m)) == init + [Run(x, m)]
    ensures Runs(values + Replicate(x, m + 1)) == init + [Run(x, m + 1)]
  {
    var shorter := values + Replicate(x, m);
    ReplicateSnoc(x, m);
    assert values + Replicate(x, m + 1) == shorter + [x];
    RunsSnoc(shorter, x);
    StepLonger(init, x, m);
  }

  lemma StepNew(runs: seq<Run>, x: char)
    requires |runs| > 0 ==> runs[|runs| - 1].value != x
    ensures Step(runs, x) == runs + [Run(x, 1)]
  {
  }

  lemma ReplicateSnoc(x: char, n: nat)
    ensures Replicate(x, n + 1) == Replicate(x, n) + [x]
  {
  }

  lemma StepLonger(init: seq<Run>, x: char, m: nat)
    ensures Step(init + [Run(x, m)], x) == init + [Run(x, m + 1)]
  {
    var r := init + [Run(x, m)];
    assert r[..|r| - 1] == init;
  }

  // ---------------------------------------------------------------------------
  // Arrangements
  // ---------------------------------------------------------------------------

  /** `create_arrangement`: the row with its unknowns replaced, in order, by
      the values of the filling; the filling must have enough values. */
  function CreateArrangement(conditions: seq<char>, filling: seq<char>): (r: seq<char>)
    requires Count(conditions, Unknown) <= |filling|
    ensures |r| == |conditions|
  {
    if |conditions| == 0 then []
    else
      assert conditions == [conditions[0]] + conditions[1..];
      CountAppend([conditions[0]], conditions[1..], Unknown);
      if conditions[0] == Unknown then [filling[0]] + CreateArrangement(conditions[1..], filling[1..])
      else [conditions[0]] + CreateArrangement(conditions[1..], filling)
  }

  /** Known springs are kept. */
  lemma {:induction false} CreateArrangementKeeps(conditions: seq<char>, filling: seq<char>)
    requires Count(conditions, Unknown) <= |filling|
    ensures forall i :: 0 <= i < |conditions| && conditions[i] != Unknown ==>
      CreateArrangement(conditions, filling)[i] == conditions[i]
  {
    if |conditions| > 0 {
      var c, rest := conditions[0], conditions[1..];
      assert conditions == [c] + rest;
      CountAppend([c], rest, Unknown);
      CreateArrangementKeeps(rest, if c == Unknown then filling[1..] else filling);
    }
  }

  /** The unknown at position `i` gets the value of the filling at the number
      of unknowns before `i`. */
  lemma CreateArrangementFills(conditions: seq<char>, filling: seq<char>)
    requires Count(conditions, Unknown) <= |filling|
    ensures forall i :: 0 <= i < |conditions| && conditions[i] == Unknown ==>
      Count(conditions[..i], Unknown) < |filling| &&
      CreateArrangement(conditions, filling)[i] == filling[Count(conditions[..i], Unknown)]
  {
    forall i | 0 <= i < |conditions| && conditions[i] == Unknown
      ensures Count(conditions[..i], Unknown) < |filling| &&
        CreateArrangement(conditions, filling)[i] == filling[Count(conditions[..i], Unknown)]
    {
      FillsAt(conditions, filling, i);
    }
  }

  lemma {:induction false} FillsAt(conditions: seq<char>, filling: seq<char>, i: nat)
    requires Count(conditions, Unknown) <= |filling|
    requires i < |conditions| && conditions[i] == Unknown
    ensures Count(conditions[..i], Unknown) < |filling| &&
      CreateArrangement(conditions, filling)[i] == filling[Count(conditions[..i], Unknown)]
  {
    var c, rest := conditions[0], conditions[1..];
    assert conditions == [c] + rest;
    CountAppend([c], rest, Unknown);
    var f' := if c == Unknown then filling[1..] else filling;
    var r := CreateArrangement(conditions, filling);
    var tail := CreateArrangement(rest, f');
    var skip := if c == Unknown then 1 else 0;
    assert r == [if c == Unknown then filling[0] else c] + tail;
    if i == 0 {
      assert conditions[..i] == [];
    } else {
      UnknownsBefore(conditions, i);
      assert rest[i - 1] == Unknown;
      FillsAt(rest, f', i - 1);
      var k := Count(rest[..i - 1], Unknown);
      assert Count(conditions[..i], Unknown) == skip + k;
      assert f'[k] == filling[skip + k];
    }
  }

  /** Counting the unknowns before `i` from the first position on. */
  lemma UnknownsBefore(conditions: seq<char>, i: nat)
    requires 0 < i <= |conditions|
    ensures Count(conditions[..i], Unknown) == Count([conditions[0]], Unknown) + Count(conditions[1..][..i - 1], Unknown)
  {
    assert conditions[..i] == [conditions[0]] + conditions[1..][..i - 1];
    CountAppend([conditions[0]], conditions[1..][..i - 1], Unknown);
  }

  /** The sizes of the groups of damaged springs, in order. */
  function DamagedGroups(runs: seq<Run>): seq<nat> {
    if |runs| == 0 then []
    else DamagedGroups(runs[..|runs| - 1]) + (if runs[|runs| - 1].value == Damaged then [runs[|runs| - 1].length] else [])
  }

  /** `is_arrangement_valid`: the damaged groups of the row are exactly the
      given sizes, in order. A valid arrangement has as many damaged
      springs as the sizes add up to. */
  function IsArrangementValid(arrangement: seq<char>, sizes: seq<nat>): (valid: bool)
    ensures valid ==> Count(arrangement, Damaged) == Sum(sizes)
  {
    RunsExpand(arrangement);
    DamagedGroupsSum(Runs(arrangement));
    DamagedGroups(Runs(arrangement)) == sizes
  }

  function Sum(xs: seq<nat>): nat {
    if |xs| == 0 then 0 else Sum(xs[..|xs| - 1]) + xs[|xs| - 1]
  }

  lemma {:induction false} SumAppend(xs: seq<nat>, ys: seq<nat>)
    ensures Sum(xs + ys) == Sum(xs) + Sum(ys)
  {
    if |ys| == 0 {
      assert xs + ys == xs;
    } else {
      SumAppend(xs, ys[..|ys| - 1]);
      assert (xs + ys)[..|xs + ys| - 1] == xs + ys[..|ys| - 1];
      assert (xs + ys)[|xs + ys| - 1] == ys[|ys| - 1];
    }
  }

  /** The damaged groups of a row add up to its number of damaged springs. */
  lemma {:induction false} DamagedGroupsSum(runs: seq<Run>)
    ensures Sum(DamagedGroups(runs)) == Count(Expand(runs), Damaged)
  {
    if |runs| > 0 {
      var init, last := runs[..|runs| - 1], runs[|runs| - 1];
      DamagedGroupsSum(init);
      SumAppend(DamagedGroups(init), if last.value == Damaged then [last.length] else []);
      CountAppend(Expand(init), Replicate(last.value, last.length), Damaged);
      CountReplicate(last.value, last.length, Damaged);
    }
  }

  lemma {:induction false} CountReplicate(x: char, n: nat, c: char)
    ensures Count(Replicate(x, n), c) == if c == x then n else 0
  {
    if n > 0 {
      CountReplicate(x, n - 1, c);
      assert Replicate(x, n)[..n - 1] == Replicate(x, n - 1);
    }
  }

  predicate AllOfLength(ps: seq<seq<char>>, m: nat) {
    forall i :: 0 <= i < |ps| ==> |ps[i]| == m
  }

  /** How many of the fillings give a valid arrangement. */
  function CountValid(conditions: seq<char>, fillings: seq<seq<char>>, sizes: seq<nat>, m: nat): (r: nat)
    requires AllOfLength(fillings, m)
    requires Count(conditions, Unknown) <= m
    ensures r <= |fillings|
  {
    if |fillings| == 0 then 0
    else
      CountValid(conditions, fillings[..|fillings| - 1], sizes, m)
      + (if IsArrangementValid(CreateArrangement(conditions, fillings[|fillings| - 1]), sizes) then 1 else 0)
  }

  lemma FillingLengths(ps: seq<seq<char>>, n: nat, k: nat)
    requires AllFillings(ps, n, k)
    ensures AllOfLength(ps, n)
  {
    assert forall i :: 0 <= i < |ps| ==> ps[i] in ps;
  }

  /** `calculate_possible_arrangements`: the unknowns are filled in every way
      that makes up the missing damaged springs, and the valid arrangements
      are counted. The subtraction needs at most as many known damaged
      springs as the group sizes add up to. */
  function PossibleArrangements(conditions: seq<char>, sizes: seq<nat>): (r: nat)
    requires Count(conditions, Damaged) <= Sum(sizes)
    ensures r <= Binomial(Count(conditions, Unknown), Sum(sizes) - Count(conditions, Damaged))
  {
    var unknowns := Count(conditions, Unknown);
    var missing := Sum(sizes) - Count(conditions, Damaged);
    var fillings := Permutations(unknowns, missing);
    FillingLengths(fillings, unknowns, missing);
    var r := CountValid(conditions, fillings, sizes, unknowns);
    r
  }

  /** A row of operational and damaged springs only. */
  predicate IsBinary(p: seq<char>) {
    forall i :: 0 <= i < |p| ==> p[i] == Damaged || p[i] == Operational
  }

  /** Filling the unknowns adds the filling's damaged springs to the known
      ones. */
  lemma {:induction false} ArrangementDamaged(conditions: seq<char>, filling: seq<char>)
    requires |filling| == Count(conditions, Unknown)
    ensures Count(CreateArrangement(conditions, filling), Damaged)
            == Count(conditions, Damaged) + Count(filling, Damaged)
  {
    if |conditions| > 0 {
      var c, rest := conditions[0], conditions[1..];
      assert conditions == [c] + rest;
      CountAppend([c], rest, Unknown);
      CountAppend([c], rest, Damaged);
      if c == Unknown {
        var tail := CreateArrangement(rest, filling[1..]);
        ArrangementDamaged(rest, filling[1..]);
        assert CreateArrangement(conditions, filling) == [filling[0]] + tail;
        assert filling == [filling[0]] + filling[1..];
        CountAppend([filling[0]], tail, Damaged);
        CountAppend([filling[0]], filling[1..], Damaged);
      } else {
        var tail := CreateArrangement(rest, filling);
        ArrangementDamaged(rest, filling);
        assert CreateArrangement(conditions, filling) == [c] + tail;
        CountAppend([c], tail, Damaged);
      }
    }
  }

  /** A filling whose number of damaged springs is not the missing number
      never gives a valid arrangement, so trying only the fillings with the
      missing number loses none. */
  lemma OtherCountsInvalid(conditions: seq<char>, sizes: seq<nat>, filling: seq<char>)
    requires |filling| == Count(conditions, Unknown)
    requires Count(conditions, Damaged) + Count(filling, Damaged) != Sum(sizes)
    ensures !IsArrangementValid(CreateArrangement(conditions, filling), sizes)
  {
    ArrangementDamaged(conditions, filling);
    if IsArrangementValid(CreateArrangement(conditions, filling), sizes) {
    }
  }

  /** The fillings listed in `fillings` that give a valid arrangement. */
  ghost function ValidAmong(conditions: seq<char>, fillings: seq<seq<char>>, sizes: seq<nat>, m: nat): set<seq<char>>
    requires Count(conditions, Unknown) <= m
  {
    set p | p in fillings && |p| == m && IsArrangementValid(CreateArrangement(conditions, p), sizes)
  }

  /** The valid fillings of a list are those of all but its last element,
      plus the last one if it is valid. */
  lemma ValidAmongSnoc(conditions: seq<char>, fillings: seq<seq<char>>, sizes: seq<nat>, m: nat)
    requires |fillings| > 0 && |fillings[|fillings| - 1]| == m && Count(conditions, Unknown) <= m
    ensures var last := fillings[|fillings| - 1];
            ValidAmong(conditions, fillings, sizes, m)
            == ValidAmong(conditions, fillings[..|fillings| - 1], sizes, m)
               + (if IsArrangementValid(CreateArrangement(conditions, last), sizes) then {last} else {})
  {
    SplitLast(fillings);
  }

  /** Counting the valid fillings of a list without repeats counts the set
      of them. */
  lemma {:induction false} CountValidIsSize(conditions: seq<char>, fillings: seq<seq<char>>, sizes: seq<nat>, m: nat)
    requires AllOfLength(fillings, m) && Count(conditions, Unknown) <= m && Distinct(fillings)
    ensures CountValid(conditions, fillings, sizes, m) == |ValidAmong(conditions, fillings, sizes, m)|
  {
    if |fillings| > 0 {
      var init, last := fillings[..|fillings| - 1], fillings[|fillings| - 1];
      assert AllOfLength(init, m) && Distinct(init);
      CountValidIsSize(conditions, init, sizes, m);
      ValidAmongSnoc(conditions, fillings, sizes, m);
      assert forall j :: 0 <= j < |init| ==> init[j] == fillings[j] != last;
    }
  }

  /** The fillings of the unknowns that `calculate_possible_arrangements`
      finds valid. */
  ghost function ValidFillings(conditions: seq<char>, sizes: seq<nat>): set<seq<char>>
    requires Count(conditions, Damaged) <= Sum(sizes)
  {
    ValidAmong(conditions, Permutations(Count(conditions, Unknown), Sum(sizes) - Count(conditions, Damaged)), sizes, Count(conditions, Unknown))
  }

  /** The fillings `get_unknowns_permutations` lists are exactly the
      fillings with that many damaged springs. */
  lemma PermutationsMember(p: seq<char>, n: nat, k: nat)
    ensures p in Permutations(n, k) <==> IsFilling(p, n, k)
  {
    if IsFilling(p, n, k) {
      PermutationsComplete(p, n, k);
    }
  }

  /** A valid arrangement has exactly the missing number of damaged springs
      in its filling. */
  lemma FillingOfValid(conditions: seq<char>, sizes: seq<nat>, p: seq<char>)
    requires Count(conditions, Damaged) <= Sum(sizes)
    requires |p| == Count(conditions, Unknown) && IsBinary(p)
    requires IsArrangementValid(CreateArrangement(conditions, p), sizes)
    ensures IsFilling(p, Count(conditions, Unknown), Sum(sizes) - Count(conditions, Damaged))
  {
    ArrangementDamaged(conditions, p);
  }

  lemma ValidAmongMember(conditions: seq<char>, fillings: seq<seq<char>>, sizes: seq<nat>, m: nat, p: seq<char>)
    requires Count(conditions, Unknown) <= m
    ensures p in ValidAmong(conditions, fillings, sizes, m) <==>
              p in fillings && |p| == m && IsArrangementValid(CreateArrangement(conditions, p), sizes)
  {
  }

  /** A filling is among the valid ones exactly when it fills every unknown
      with an operational or a damaged spring and the result is valid. */
  lemma ValidFillingsMember(conditions: seq<char>, sizes: seq<nat>, p: seq<char>)
    requires Count(conditions, Damaged) <= Sum(sizes)
    ensures p in ValidFillings(conditions, sizes) <==>
              |p| == Count(conditions, Unknown) && IsBinary(p)
              && IsArrangementValid(CreateArrangement(conditions, p), sizes)
  {
    if p in ValidFillings(conditions, sizes) {
      ValidFillingsSound(conditions, sizes, p);
    } else if |p| == Count(conditions, Unknown) && IsBinary(p)
              && IsArrangementValid(CreateArrangement(conditions, p), sizes) {
      ValidFillingsComplete(conditions, sizes, p);
    }
  }

  lemma ValidFillingsSound(conditions: seq<char>, sizes: seq<nat>, p: seq<char>)
    requires Count(conditions, Damaged) <= Sum(sizes)
    requires p in ValidFillings(conditions, sizes)
    ensures |p| == Count(conditions, Unknown) && IsBinary(p)
    ensures IsArrangementValid(CreateArrangement(conditions, p), sizes)
  {
    var unknowns := Count(conditions, Unknown);
    var missing := Sum(sizes) - Count(conditions, Damaged);
    ValidAmongMember(conditions, Permutations(unknowns, missing), sizes, unknowns, p);
    PermutationsMember(p, unknowns, missing);
  }

  lemma ValidFillingsComplete(conditions: seq<char>, sizes: seq<nat>, p: seq<char>)
    requires Count(conditions, Damaged) <= Sum(sizes)
    requires |p| == Count(conditions, Unknown) && IsBinary(p)
    requires IsArrangementValid(CreateArrangement(conditions, p), sizes)
    ensures p in ValidFillings(conditions, sizes)
  {
    var unknowns := Count(conditions, Unknown);
    var missing := Sum(sizes) - Count(conditions, Damaged);
    FillingOfValid(conditions, sizes, p);
    PermutationsMember(p, unknowns, missing);
    ValidAmongMember(conditions, Permutations(unknowns, missing), sizes, unknowns, p);
  }

  /** The number of arrangements is the number of ways of replacing every
      unknown by an operational or a damaged spring so that the damaged
      groups are exactly the sizes. */
  lemma PossibleArrangementsCountsValid(conditions: seq<char>, sizes: seq<nat>)
    requires Count(conditions, Damaged) <= Sum(sizes)
    ensures PossibleArrangements(conditions, sizes) == |ValidFillings(conditions, sizes)|
    ensures forall p :: p in ValidFillings(conditions, sizes) <==>
              |p| == Count(conditions, Unknown) && IsBinary(p)
              && IsArrangementValid(CreateArrangement(conditions, p), sizes)
  {
    PossibleArrangementsIsSize(conditions, sizes);
    forall p {
      ValidFillingsMember(conditions, sizes, p);
    }
  }

  lemma PossibleArrangementsIsSize(conditions: seq<char>, sizes: seq<nat>)
    requires Count(conditions, Damaged) <= Sum(sizes)
    ensures PossibleArrangements(conditions, sizes) == |ValidFillings(conditions, sizes)|
  {
    var unknowns := Count(conditions, Unknown);
    var missing := Sum(sizes) - Count(conditions, Damaged);
    var fillings := Permutations(unknowns, missing);
    FillingLengths(fillings, unknowns, missing);
    PossibleArrangementsUnfold(conditions, sizes);
    CountValidIsSize(conditions, fillings, sizes, unknowns);
  }

  lemma PossibleArrangementsUnfold(conditions: seq<char>, sizes: seq<nat>)
    requires Count(conditions, Damaged) <= Sum(sizes)
    requires AllOfLength(Permutations(Count(conditions, Unknown), Sum(sizes) - Count(conditions, Damaged)), Count(conditions, Unknown))
    ensures PossibleArrangements(conditions, sizes)
            == CountValid(conditions, Permutations(Count(conditions, Unknown), Sum(sizes) - Count(conditions, Damaged)), sizes, Count(conditions, Unknown))
  {
  }

  // ---------------------------------------------------------------------------
  // Parsing and part 1
  // ---------------------------------------------------------------------------

  /** Every piece is what `str::parse::<usize>` accepts. */
  predicate AllDecimal(pieces: seq<string>) {
    forall i :: 0 <= i < |pieces| ==> |pieces[i]| > 0 && Text.AllDigits(pieces[i])
  }

  function DecimalValues(pieces: seq<string>): (sizes: seq<nat>)
    requires AllDecimal(pieces)
    ensures |sizes| == |pieces|
  {
    seq(|pieces|, i requires 0 <= i < |pieces| => Text.DecimalValue(pieces[i]))
  }

  /** `parse_record`: the springs before the first space, then the group
      sizes separated by commas. None where the source panics: a line
      without a space, or a size that is not a number. */
  function ParseRecord(line: string): (r: Option<(seq<char>, seq<nat>)>)
    ensures r.Some? <==> ' ' in line && AllDecimal(Text.Split(Text.SplitOnce(line, ' ').value.1, ','))
  {
    match Text.SplitOnce(line, ' ')
      case None => None
      case Some((conditions, rest)) =>
        var pieces := Text.Split(rest, ',');
        if !AllDecimal(pieces) then None
        else Some((conditions, DecimalValues(pieces)))
  }

  /** A parsed record's springs are the line up to its first space, and it
      has one size per comma-separated piece after that space. */
  lemma ParsedRecordSplitsLine(line: string)
    requires ParseRecord(line).Some?
    ensures var conditions := ParseRecord(line).value.0;
            |conditions| < |line| && line[..|conditions|] == conditions
            && line[|conditions|] == ' ' && ' ' !in conditions
    ensures |ParseRecord(line).value.1| == |Text.Split(Text.SplitOnce(line, ' ').value.1, ',')|
  {
    var (conditions, rest) := Text.SplitOnce(line, ' ').value;
    assert line == conditions + [' '] + rest;
    assert line[..|conditions|] == conditions;
  }

  /** The sizes written in decimal, separated by commas. */
  function SizesText(sizes: seq<nat>): string
    requires |sizes| > 0
  {
    Text.Join(seq(|sizes|, i requires 0 <= i < |sizes| => Text.NatToDecimal(sizes[i])), ',')
  }

  /** A line is split at its first space. */
  lemma SplitOnceAtSpace(conditions: seq<char>, rest: string)
    requires ' ' !in conditions
    ensures Text.SplitOnce(conditions + [' '] + rest, ' ') == Some((conditions, rest))
  {
    var line := conditions + [' '] + rest;
    assert line[|conditions|] == ' ';
    var (a, b) := Text.SplitOnce(line, ' ').value;
    assert line[|a|] == ' ';
    assert a == line[..|a|] == conditions;
    assert b == line[|a| + 1..] == rest;
  }

  /** The sizes written out split at the commas into decimal pieces that
      read back as the sizes. */
  lemma SizesTextRoundTrip(sizes: seq<nat>)
    requires |sizes| > 0
    ensures AllDecimal(Text.Split(SizesText(sizes), ','))
    ensures DecimalValues(Text.Split(SizesText(sizes), ',')) == sizes
  {
    var pieces := seq(|sizes|, i requires 0 <= i < |sizes| => Text.NatToDecimal(sizes[i]));
    forall i | 0 <= i < |pieces|
      ensures ',' !in pieces[i]
    {
      assert Text.IsDecimal(pieces[i]);
    }
    Text.JoinThenSplit(pieces, ',');
    forall i | 0 <= i < |sizes|
      ensures Text.DecimalValue(pieces[i]) == sizes[i]
    {
      Text.DecimalRoundTrip(sizes[i]);
    }
    assert DecimalValues(pieces) == sizes;
  }

  /** A row written out as springs, a space and the sizes parses back to
      that row and those sizes. */
  lemma ParseRecordOfText(conditions: seq<char>, sizes: seq<nat>)
    requires ' ' !in conditions && |sizes| > 0
    ensures ParseRecord(conditions + [' '] + SizesText(sizes)) == Some((conditions, sizes))
  {
    SplitOnceAtSpace(conditions, SizesText(sizes));
    SizesTextRoundTrip(sizes);
  }

  /** The record of a line is usable: it parses, and its known damaged
      springs are no more than the sizes add up to, so the subtraction in
      `calculate_possible_arrangements` does not underflow. */
  predicate IsRecordLine(line: string) {
    ParseRecord(line).Some? && Count(ParseRecord(line).value.0, Damaged) <= Sum(ParseRecord(line).value.1)
  }

  /** `calculate_possible_arrangements` on one line of the input. */
  function LineArrangements(line: string): (r: Option<nat>)
    ensures r.Some? <==> IsRecordLine(line)
  {
    var record := ParseRecord(line);
    if record.None? || Count(record.value.0, Damaged) > Sum(record.value.1) then None
    else Some(PossibleArrangements(record.value.0, record.value.1))
  }

  /** Every line is a usable record. */
  predicate AllRecordLines(lines: seq<string>) {
    forall i :: 0 <= i < |lines| ==> IsRecordLine(lines[i])
  }

  /** Every line is usable exactly when all but the last are and the last
      is. */
  lemma AllRecordLinesSnoc(lines: seq<string>)
    requires |lines| > 0
    ensures AllRecordLines(lines) <==>
            AllRecordLines(lines[..|lines| - 1]) && IsRecordLine(lines[|lines| - 1])
  {
    var init := lines[..|lines| - 1];
    assert forall i :: 0 <= i < |init| ==> init[i] == lines[i];
  }

  /** The number of arrangements of a usable record line is the number of
      valid fillings of its unknowns. */
  lemma LineArrangementsCountsValid(line: string)
    requires IsRecordLine(line)
    ensures var record := ParseRecord(line).value;
            Count(record.0, Damaged) <= Sum(record.1)
            && LineArrangements(line).value == |ValidFillings(record.0, record.1)|
  {
    var record := ParseRecord(line).value;
    PossibleArrangementsCountsValid(record.0, record.1);
  }

  /** The number of arrangements of each line, in order. */
  function LineCounts(lines: seq<string>): (r: seq<nat>)
    requires AllRecordLines(lines)
    ensures |r| == |lines|
    ensures forall i :: 0 <= i < |lines| ==> LineArrangements(lines[i]) == Some(r[i])
  {
    seq(|lines|, i requires 0 <= i < |lines| && AllRecordLines(lines) => LineArrangements(lines[i]).value)
  }

  /** The arrangements of the lines added up; none when a line panics. */
  function TotalArrangements(lines: seq<string>): (r: Option<nat>)
    ensures r.Some? <==> AllRecordLines(lines)
    ensures r.Some? ==> r.value == Sum(LineCounts(lines))
  {
    if |lines| == 0 then Some(0)
    else
      AllRecordLinesSnoc(lines);
      match TotalArrangements(lines[..|lines| - 1])
        case None => None
        case Some(total) =>
          match LineArrangements(lines[|lines| - 1])
            case None => None
            case Some(n) =>
              assert LineCounts(lines)[..|lines| - 1] == LineCounts(lines[..|lines| - 1]);
              Some(total + n)
  }

  /** `part_1`: the arrangements of every line of the input added up. */
  function Part1(input: string): (r: Option<nat>)
    ensures r.Some? <==> AllRecordLines(Text.Lines(input))
    ensures r.Some? ==> r.value == Sum(LineCounts(Text.Lines(input)))
  {
    TotalArrangements(Text.Lines(input))
  }
}
