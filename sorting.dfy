/**
 * A stable sort by key, the model of Rust's `slice::sort_by_key` when the
 * key is a tuple or array compared lexicographically. Keys are sequences of
 * integers compared element by element.
 */
module Sorting {
  /** Lexicographic order: `a` comes no later than `b`. */
  predicate LexLe(a: seq<int>, b: seq<int>) {
    |a| == 0 || (|b| > 0 && (a[0] < b[0] || (a[0] == b[0] && LexLe(a[1..], b[1..]))))
  }

  /** Any two keys are ordered one way or the other. */
  lemma {:induction false} LexLeTotal(a: seq<int>, b: seq<int>)
    ensures LexLe(a, b) || LexLe(b, a)
  {
    if |a| > 0 && |b| > 0 && a[0] == b[0] {
      LexLeTotal(a[1..], b[1..]);
    }
  }

  /** The order is transitive. */
  lemma {:induction false} LexLeTransitive(a: seq<int>, b: seq<int>, c: seq<int>)
    requires LexLe(a, b) && LexLe(b, c)
    ensures LexLe(a, c)
  {
    if |a| > 0 && a[0] == b[0] && b[0] == c[0] {
      LexLeTransitive(a[1..], b[1..], c[1..]);
    }
  }

  /** The elements of `s` in key order. */
  ghost predicate SortedBy<T>(s: seq<T>, key: T -> seq<int>) {
    forall i, j :: 0 <= i < j < |s| ==> LexLe(key(s[i]), key(s[j]))
  }

  /** `x` placed into the sorted `s` after every element whose key is not
      greater than its own: the step of a stable insertion sort. */
  function InsertBy<T>(x: T, s: seq<T>, key: T -> seq<int>): (r: seq<T>)
    requires SortedBy(s, key)
    ensures |r| == |s| + 1 && multiset(r) == multiset(s) + multiset{x}
    ensures SortedBy(r, key)
  {
    if |s| == 0 then [x]
    else if !LexLe(key(s[0]), key(x)) then
      InsertBefore(x, s, key);
      [x] + s
    else
      var rest := InsertBy(x, s[1..], key);
      InsertAfter(x, s, key, rest);
      assert s == [s[0]] + s[1..];
      [s[0]] + rest
  }

  /** `x` in front of a sorted `s` whose first key is greater keeps it
      sorted. */
  lemma InsertBefore<T>(x: T, s: seq<T>, key: T -> seq<int>)
    requires |s| > 0 && SortedBy(s, key) && !LexLe(key(s[0]), key(x))
    ensures SortedBy([x] + s, key)
  {
    LexLeTotal(key(s[0]), key(x));
    forall j | 1 <= j < |s| + 1
      ensures LexLe(key(([x] + s)[0]), key(([x] + s)[j]))
    {
      if j > 1 {
        LexLeTransitive(key(x), key(s[0]), key(s[j - 1]));
      }
    }
  }

  /** `s[0]` in front of the insertion into `s[1..]` keeps it sorted. */
  lemma InsertAfter<T>(x: T, s: seq<T>, key: T -> seq<int>, rest: seq<T>)
    requires |s| > 0 && SortedBy(s, key) && LexLe(key(s[0]), key(x))
    requires SortedBy(rest, key) && multiset(rest) == multiset(s[1..]) + multiset{x}
    ensures SortedBy([s[0]] + rest, key)
  {
    forall j | 0 <= j < |rest|
      ensures LexLe(key(s[0]), key(rest[j]))
    {
      assert rest[j] in multiset(rest);
      if rest[j] != x {
        assert rest[j] in multiset(s[1..]);
        var k :| 0 <= k < |s[1..]| && s[1..][k] == rest[j];
        assert s[k + 1] == rest[j];
      }
    }
  }

  /** `sort_by_key`: a stable sort, by inserting the elements one after the
      other. */
  function SortBy<T>(s: seq<T>, key: T -> seq<int>): (r: seq<T>)
    ensures |r| == |s| && multiset(r) == multiset(s)
    ensures SortedBy(r, key)
  {
    if |s| == 0 then []
    else
      var n := |s| - 1;
      assert s == s[..n] + [s[n]];
      InsertBy(s[n], SortBy(s[..n], key), key)
  }
}
