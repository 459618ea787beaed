/**
 * Python's `sorted(xs, key=k, reverse=True)` and `list.sort(key=k,
 * reverse=True)` for the two kinds of key the programs sort by: a string
 * (an alert's `sent` time) and a pair of a number and a string (a quiz
 * attempt's score and timestamp). Python's sort is stable, also with
 * `reverse=True`: elements with equal keys keep their original order.
 */
module Ranking {

  /** A sort key: Python compares the pair lexicographically. */
  datatype Key = Key(primary: int, secondary: string)

  /** Python's `<` on strings: lexicographic by code point. */
  predicate StrLess(a: string, b: string)
    decreases |a|
  {
    if a == [] then b != []
    else if b == [] then false
    else a[0] < b[0] || (a[0] == b[0] && StrLess(a[1..], b[1..]))
  }

  /** Python's `<` on the key pair. */
  predicate Less(a: Key, b: Key) {
    a.primary < b.primary || (a.primary == b.primary && StrLess(a.secondary, b.secondary))
  }

  lemma {:induction false} StrLessIrreflexive(a: string)
    ensures !StrLess(a, a)
  {
    if a != [] {
      StrLessIrreflexive(a[1..]);
    }
  }

  lemma {:induction false} StrLessTransitive(a: string, b: string, c: string)
    requires StrLess(a, b) && StrLess(b, c)
    ensures StrLess(a, c)
    decreases |a|
  {
    if a != [] && b != [] && c != [] && a[0] == b[0] && b[0] == c[0] {
      StrLessTransitive(a[1..], b[1..], c[1..]);
    }
  }

  lemma {:induction false} StrLessTotal(a: string, b: string)
    ensures a == b || StrLess(a, b) || StrLess(b, a)
    decreases |a|
  {
    if a != [] && b != [] && a[0] == b[0] {
      StrLessTotal(a[1..], b[1..]);
      assert a == [a[0]] + a[1..] && b == [b[0]] + b[1..];
    }
  }

  lemma LessIrreflexive(a: Key)
    ensures !Less(a, a)
  {
    StrLessIrreflexive(a.secondary);
  }

  lemma LessTransitive(a: Key, b: Key, c: Key)
    requires Less(a, b) && Less(b, c)
    ensures Less(a, c)
  {
    if a.primary == b.primary && b.primary == c.primary {
      StrLessTransitive(a.secondary, b.secondary, c.secondary);
    }
  }

  lemma LessTotal(a: Key, b: Key)
    ensures a == b || Less(a, b) || Less(b, a)
  {
    StrLessTotal(a.secondary, b.secondary);
  }

  /** Ordered for `reverse=True`: no element ranks below a later one. */
  predicate SortedDesc<T>(s: seq<T>, key: T -> Key) {
    forall i, j :: 0 <= i < j < |s| ==> !Less(key(s[i]), key(s[j]))
  }

  /** No element of `s` ranks above `k`. */
  predicate NoneAbove<T>(s: seq<T>, key: T -> Key, k: Key) {
    forall i :: 0 <= i < |s| ==> !Less(k, key(s[i]))
  }

  /**
   * `x` placed in front of the first element that ranks strictly below it,
   * hence after every element whose key equals its own.
   */
  function Insert<T>(x: T, s: seq<T>, key: T -> Key): (r: seq<T>)
    ensures |r| == |s| + 1
    ensures multiset(r) == multiset(s) + multiset{x}
  {
    if s == [] then [x]
    else if Less(key(s[0]), key(x)) then [x] + s
    else
      assert s == [s[0]] + s[1..];
      [s[0]] + Insert(x, s[1..], key)
  }

  /** The stable descending sort, as insertion of each element in turn. */
  function SortDesc<T>(xs: seq<T>, key: T -> Key): (r: seq<T>)
    ensures |r| == |xs|
    ensures multiset(r) == multiset(xs)
  {
    if xs == [] then []
    else
      assert xs == xs[..|xs| - 1] + [xs[|xs| - 1]];
      Insert(xs[|xs| - 1], SortDesc(xs[..|xs| - 1], key), key)
  }

  /** The elements of `s` whose key is `k`, in their order in `s`. */
  function WithKey<T>(s: seq<T>, key: T -> Key, k: Key): seq<T> {
    if s == [] then [] else (if key(s[0]) == k then [s[0]] else []) + WithKey(s[1..], key, k)
  }

  lemma {:induction false} InsertNoneAbove<T>(x: T, s: seq<T>, key: T -> Key, k: Key)
    requires NoneAbove(s, key, k) && !Less(k, key(x))
    ensures NoneAbove(Insert(x, s, key), key, k)
  {
    if s != [] && !Less(key(s[0]), key(x)) {
      InsertNoneAbove(x, s[1..], key, k);
    }
  }

  lemma {:induction false} InsertSorted<T>(x: T, s: seq<T>, key: T -> Key)
    requires SortedDesc(s, key)
    ensures SortedDesc(Insert(x, s, key), key)
  {
    if s == [] {
    } else if Less(key(s[0]), key(x)) {
      forall i | 0 <= i < |s|
        ensures !Less(key(x), key(s[i]))
      {
        if Less(key(x), key(s[i])) {
          LessTransitive(key(s[0]), key(x), key(s[i]));
          if i == 0 {
            LessIrreflexive(key(s[0]));
          }
        }
      }
    } else {
      InsertSorted(x, s[1..], key);
      InsertNoneAbove(x, s[1..], key, key(s[0]));
      var r := Insert(x, s[1..], key);
      assert Insert(x, s, key) == [s[0]] + r;
    }
  }

  /** The sort's result is ordered for `reverse=True`. */
  lemma {:induction false} SortDescSorted<T>(xs: seq<T>, key: T -> Key)
    ensures SortedDesc(SortDesc(xs, key), key)
  {
    if xs != [] {
      SortDescSorted(xs[..|xs| - 1], key);
      InsertSorted(xs[|xs| - 1], SortDesc(xs[..|xs| - 1], key), key);
    }
  }

  lemma {:induction false} WithKeyAppend<T>(a: seq<T>, b: seq<T>, key: T -> Key, k: Key)
    ensures WithKey(a + b, key, k) == WithKey(a, key, k) + WithKey(b, key, k)
  {
    if a != [] {
      assert (a + b)[0] == a[0] && (a + b)[1..] == a[1..] + b;
      WithKeyAppend(a[1..], b, key, k);
    } else {
      assert a + b == b;
    }
  }

  lemma {:induction false} WithKeyNone<T>(s: seq<T>, key: T -> Key, k: Key)
    requires forall i :: 0 <= i < |s| ==> Less(key(s[i]), k)
    ensures WithKey(s, key, k) == []
  {
    if s != [] {
      LessIrreflexive(k);
      WithKeyNone(s[1..], key, k);
    }
  }

  /** Inserting into a sorted list puts `x` after the elements with its key. */
  lemma {:induction false} InsertStable<T>(x: T, s: seq<T>, key: T -> Key, k: Key)
    requires SortedDesc(s, key)
    ensures WithKey(Insert(x, s, key), key, k)
         == WithKey(s, key, k) + (if key(x) == k then [x] else [])
  {
    if s == [] {
    } else if Less(key(s[0]), key(x)) {
      if key(x) == k {
        forall i | 0 <= i < |s|
          ensures Less(key(s[i]), k)
        {
          if i > 0 {
            LessTotal(key(s[i]), key(s[0]));
            if Less(key(s[i]), key(s[0])) {
              LessTransitive(key(s[i]), key(s[0]), key(x));
            }
          }
        }
        WithKeyNone(s, key, k);
      }
      assert Insert(x, s, key) == [x] + s;
    } else {
      InsertStable(x, s[1..], key, k);
      assert Insert(x, s, key) == [s[0]] + Insert(x, s[1..], key);
    }
  }

  /** Stability: elements with equal keys keep their relative order. */
  lemma {:induction false} SortDescStable<T>(xs: seq<T>, key: T -> Key, k: Key)
    ensures WithKey(SortDesc(xs, key), key, k) == WithKey(xs, key, k)
  {
    if xs != [] {
      var p := xs[..|xs| - 1];
      assert xs == p + [xs[|xs| - 1]];
      SortDescSorted(p, key);
      SortDescStable(p, key, k);
      StableStep(p, xs[|xs| - 1], SortDesc(p, key), key, k);
    }
  }

  lemma StableStep<T>(p: seq<T>, l: T, sp: seq<T>, key: T -> Key, k: Key)
    requires SortedDesc(sp, key) && WithKey(sp, key, k) == WithKey(p, key, k)
    ensures WithKey(Insert(l, sp, key), key, k) == WithKey(p + [l], key, k)
  {
    InsertStable(l, sp, key, k);
    WithKeyAppend(p, [l], key, k);
  }

  /** No two elements of `s` share a label under `f`. */
  predicate DistinctBy<T>(s: seq<T>, f: T -> string) {
    forall i, j :: 0 <= i < j < |s| ==> f(s[i]) != f(s[j])
  }

  lemma {:induction false} InsertDistinct<T>(x: T, s: seq<T>, key: T -> Key, f: T -> string)
    requires DistinctBy(s, f)
    requires forall i :: 0 <= i < |s| ==> f(s[i]) != f(x)
    ensures DistinctBy(Insert(x, s, key), f)
  {
    if s != [] && !Less(key(s[0]), key(x)) {
      var r := Insert(x, s[1..], key);
      InsertDistinct(x, s[1..], key, f);
      forall j | 0 <= j < |r|
        ensures f(s[0]) != f(r[j])
      {
        assert r[j] in multiset(s[1..]) + multiset{x};
        if r[j] != x {
          assert r[j] in s[1..];
        }
      }
      assert Insert(x, s, key) == [s[0]] + r;
    }
  }

  /** Sorting keeps labels distinct: it only moves elements. */
  lemma {:induction false} SortDescDistinct<T>(xs: seq<T>, key: T -> Key, f: T -> string)
    requires DistinctBy(xs, f)
    ensures DistinctBy(SortDesc(xs, key), f)
  {
    if xs != [] {
      var p := xs[..|xs| - 1];
      var sp := SortDesc(p, key);
      SortDescDistinct(p, key, f);
      forall i | 0 <= i < |sp|
        ensures f(sp[i]) != f(xs[|xs| - 1])
      {
        assert sp[i] in multiset(p);
        var k :| 0 <= k < |p| && p[k] == sp[i];
        assert xs[k] == p[k];
      }
      InsertDistinct(xs[|xs| - 1], sp, key, f);
    }
  }

  /** Up to `n` leading elements (`xs[:n]`). */
  function Take<T>(xs: seq<T>, n: nat): (r: seq<T>)
    ensures |r| == if |xs| < n then |xs| else n
    ensures r <= xs
  {
    if |xs| <= n then xs else xs[..n]
  }
}
