/**
 * Sums over the elements of a finite set, taken in no particular order:
 * the model of summing over a `HashMap` or `HashSet`, whose iteration order
 * is unspecified.
 */
module Sums {
  /** The sum of `f` over `s`, the elements taken in an arbitrary order. */
  ghost function SetSum<T>(s: set<T>, f: T -> int): int
    decreases |s|
  {
    if s == {} then 0 else var x :| x in s; f(x) + SetSum(s - {x}, f)
  }

  /** The order does not matter: any element can be taken out first. */
  lemma {:induction false} SetSumRemove<T>(s: set<T>, f: T -> int, y: T)
    requires y in s
    ensures SetSum(s, f) == f(y) + SetSum(s - {y}, f)
    decreases |s|
  {
    var x :| x in s && SetSum(s, f) == f(x) + SetSum(s - {x}, f);
    if x != y {
      SetSumRemove(s - {x}, f, y);
      SetSumRemove(s - {y}, f, x);
      assert s - {x} - {y} == s - {y} - {x};
    }
  }

  /** A sum of non-negative terms is non-negative. */
  lemma {:induction false} SetSumNonNegative<T>(s: set<T>, f: T -> int)
    requires forall x :: x in s ==> f(x) >= 0
    ensures SetSum(s, f) >= 0
    decreases |s|
  {
    if s != {} {
      var x :| x in s && SetSum(s, f) == f(x) + SetSum(s - {x}, f);
      SetSumNonNegative(s - {x}, f);
    }
  }

  /** Sums of two functions that agree on the set are equal. */
  lemma {:induction false} SetSumCongruent<T>(s: set<T>, f: T -> int, g: T -> int)
    requires forall x :: x in s ==> f(x) == g(x)
    ensures SetSum(s, f) == SetSum(s, g)
    decreases |s|
  {
    if s != {} {
      var x :| x in s && SetSum(s, f) == f(x) + SetSum(s - {x}, f);
      SetSumRemove(s, g, x);
      SetSumCongruent(s - {x}, f, g);
    }
  }

  /** A sum of terms that are each no larger than the matching terms of
      another is no larger. */
  lemma {:induction false} SetSumMonotone<T>(s: set<T>, f: T -> int, g: T -> int)
    requires forall x :: x in s ==> f(x) <= g(x)
    ensures SetSum(s, f) <= SetSum(s, g)
    decreases |s|
  {
    if s != {} {
      var x :| x in s && SetSum(s, f) == f(x) + SetSum(s - {x}, f);
      SetSumRemove(s, g, x);
      SetSumMonotone(s - {x}, f, g);
    }
  }

  /** The sum of a sequence, its terms added in order. */
  function SeqSum(xs: seq<int>): int {
    if |xs| == 0 then 0 else SeqSum(xs[..|xs| - 1]) + xs[|xs| - 1]
  }

  /** Adding one more term. */
  lemma SeqSumSnoc(xs: seq<int>, k: nat)
    requires k < |xs|
    ensures SeqSum(xs[..k + 1]) == SeqSum(xs[..k]) + xs[k]
  {
    assert xs[..k + 1][..k] == xs[..k];
  }

  /** A sum of terms that are each at least `lo` is at least `lo` times
      their number. */
  lemma {:induction false} SeqSumAtLeast(xs: seq<int>, lo: int)
    requires forall i :: 0 <= i < |xs| ==> xs[i] >= lo
    ensures SeqSum(xs) >= lo * |xs|
  {
    if |xs| > 0 {
      SeqSumAtLeast(xs[..|xs| - 1], lo);
    }
  }

  /** A sum of terms that are each at most `hi` is at most `hi` times
      their number. */
  lemma {:induction false} SeqSumAtMost(xs: seq<int>, hi: int)
    requires forall i :: 0 <= i < |xs| ==> xs[i] <= hi
    ensures SeqSum(xs) <= hi * |xs|
  {
    if |xs| > 0 {
      SeqSumAtMost(xs[..|xs| - 1], hi);
    }
  }
}
