/**
 * Stable sorting by a numeric key, and the head/tail windows of a sequence.
 * Sorting has the behaviour of Python's `sorted(..., key=)`
 * and of JavaScript's `Array.prototype.sort` with a key comparator (stable since
 * ES2019). A descending sort is an ascending sort by the negated key.
 */
module Sorting {
  import opened Text

  predicate SortedBy<T>(s: seq<T>, key: T -> real)
  {
    forall i, j :: 0 <= i < j < |s| ==> key(s[i]) <= key(s[j])
  }

  /** The elements whose key equals `k`, in their order in `s`. */
  function WithKey<T>(s: seq<T>, key: T -> real, k: real): seq<T>
  {
    if s == [] then [] else (if key(s[0]) == k then [s[0]] else []) + WithKey(s[1..], key, k)
  }

  /** Puts `x` after every element of the sorted `s` whose key is not larger. */
  function Insert<T>(x: T, s: seq<T>, key: T -> real): (r: seq<T>)
    ensures |r| == |s| + 1
  {
    if s == [] then [x]
    else if key(s[0]) <= key(x) then [s[0]] + Insert(x, s[1..], key)
    else [x] + s
  }

  lemma {:induction false} InsertMultiset<T>(x: T, s: seq<T>, key: T -> real)
    ensures multiset(Insert(x, s, key)) == multiset(s) + multiset{x}
  {
    if s != [] && key(s[0]) <= key(x) {
      InsertMultiset(x, s[1..], key);
      assert s == [s[0]] + s[1..];
    }
  }

  /** A head no larger than any element of a sorted tail keeps the sequence sorted. */
  lemma SortedCons<T>(h: T, s: seq<T>, key: T -> real)
    requires SortedBy(s, key)
    requires forall i :: 0 <= i < |s| ==> key(h) <= key(s[i])
    ensures SortedBy([h] + s, key)
  {
    var r := [h] + s;
    forall i, j | 0 <= i < j < |r| ensures key(r[i]) <= key(r[j]) {
      assert r[j] == s[j - 1];
      if i > 0 {
        assert r[i] == s[i - 1];
      }
    }
  }

  /** Inserting keeps a lower bound that `x` and every element of `s` meet. */
  lemma {:induction false} InsertAbove<T>(x: T, s: seq<T>, key: T -> real, b: real)
    requires b <= key(x)
    requires forall i :: 0 <= i < |s| ==> b <= key(s[i])
    ensures forall i :: 0 <= i < |Insert(x, s, key)| ==> b <= key(Insert(x, s, key)[i])
  {
    if s != [] && key(s[0]) <= key(x) {
      InsertAbove(x, s[1..], key, b);
      var r := [s[0]] + Insert(x, s[1..], key);
      forall i | 0 <= i < |r| ensures b <= key(r[i]) {
        if i > 0 {
          assert r[i] == Insert(x, s[1..], key)[i - 1];
        }
      }
    } else if s != [] {
      var r := [x] + s;
      forall i | 0 <= i < |r| ensures b <= key(r[i]) {
        if i > 0 {
          assert r[i] == s[i - 1];
        }
      }
    }
  }

  lemma {:induction false} InsertSorted<T>(x: T, s: seq<T>, key: T -> real)
    requires SortedBy(s, key)
    ensures SortedBy(Insert(x, s, key), key)
  {
    if s != [] && key(s[0]) <= key(x) {
      InsertSorted(x, s[1..], key);
      InsertAbove(x, s[1..], key, key(s[0]));
      SortedCons(s[0], Insert(x, s[1..], key), key);
    } else if s != [] {
      SortedCons(x, s, key);
    }
  }

  /** The elements with key `k` of a sequence with one more element in front. */
  lemma WithKeyCons<T>(x: T, s: seq<T>, key: T -> real, k: real)
    ensures WithKey([x] + s, key, k) == (if key(x) == k then [x] else []) + WithKey(s, key, k)
  {
    assert ([x] + s)[1..] == s;
  }

  /** Insertion sort that inserts the elements in their input order. */
  function SortBy<T>(xs: seq<T>, key: T -> real): (r: seq<T>)
    ensures multiset(r) == multiset(xs)
    ensures SortedBy(r, key)
    ensures |r| == |xs|
  {
    if xs == [] then []
    else
      var init := xs[..|xs| - 1];
      assert xs == init + [xs[|xs| - 1]];
      InsertMultiset(xs[|xs| - 1], SortBy(init, key), key);
      InsertSorted(xs[|xs| - 1], SortBy(init, key), key);
      Insert(xs[|xs| - 1], SortBy(init, key), key)
  }

  lemma {:induction false} WithKeyAppend<T>(a: seq<T>, b: seq<T>, key: T -> real, k: real)
    ensures WithKey(a + b, key, k) == WithKey(a, key, k) + WithKey(b, key, k)
  {
    if a == [] {
      assert a + b == b;
    } else {
      WithKeyAppend(a[1..], b, key, k);
      WithKeyCons(a[0], a[1..] + b, key, k);
      WithKeyCons(a[0], a[1..], key, k);
      assert a + b == [a[0]] + (a[1..] + b);
      assert a == [a[0]] + a[1..];
    }
  }

  lemma {:induction false} WithKeyNone<T>(s: seq<T>, key: T -> real, k: real)
    requires forall i :: 0 <= i < |s| ==> key(s[i]) != k
    ensures WithKey(s, key, k) == []
  {
    if s != [] {
      WithKeyNone(s[1..], key, k);
    }
  }

  lemma {:induction false} InsertWithKey<T>(x: T, s: seq<T>, key: T -> real, k: real)
    requires SortedBy(s, key)
    ensures WithKey(Insert(x, s, key), key, k) == WithKey(s, key, k) + (if key(x) == k then [x] else [])
  {
    if s == [] {
      WithKeyCons(x, [], key, k);
    } else if key(s[0]) <= key(x) {
      InsertWithKey(x, s[1..], key, k);
      WithKeyCons(s[0], Insert(x, s[1..], key), key, k);
      WithKeyCons(s[0], s[1..], key, k);
      assert s == [s[0]] + s[1..];
    } else {
      WithKeyCons(x, s, key, k);
      if key(x) == k {
        WithKeyNone(s, key, k);
      }
    }
  }

  /** Stability: among equal keys the input order survives sorting. */
  lemma {:induction false} SortByStable<T>(xs: seq<T>, key: T -> real, k: real)
    ensures WithKey(SortBy(xs, key), key, k) == WithKey(xs, key, k)
  {
    if xs != [] {
      var init, last := xs[..|xs| - 1], xs[|xs| - 1];
      assert xs == init + [last];
      SortByStable(init, key, k);
      InsertWithKey(last, SortBy(init, key), key, k);
      WithKeyAppend(init, [last], key, k);
      assert WithKey([last], key, k) == (if key(last) == k then [last] else []) by {
        assert [last][1..] == [];
      }
    }
  }

  /** The first `n` elements, or all of them when there are fewer (`slice(0, n)`, `[:n]`). */
  function Take<T>(s: seq<T>, n: nat): (r: seq<T>)
    ensures |r| <= n && |r| <= |s|
    ensures r == s[..|r|]
    ensures |s| <= n ==> r == s
  {
    if |s| <= n then s else s[..n]
  }

  /** The last `n` elements, or all of them when there are fewer (`s[-n:]`, `slice(-n)`, n > 0). */
  function Last<T>(s: seq<T>, n: nat): (r: seq<T>)
    ensures |r| <= n && |r| <= |s|
    ensures r == s[|s| - |r|..]
    ensures |s| <= n ==> r == s
    ensures |s| >= n ==> |r| == n
  {
    if |s| <= n then s else s[|s| - n..]
  }

  /** Strictly increasing in Python's string order, so also free of duplicates. */
  predicate StrictlySorted(s: seq<string>)
  {
    forall i, j :: 0 <= i < j < |s| ==> StrLess(s[i], s[j])
  }

  /** `r` lists the set `s` in increasing order: `sorted(s)` for a set of strings. */
  ghost predicate ListsSorted(r: seq<string>, s: set<string>)
  {
    StrictlySorted(r) && (forall x :: x in r <==> x in s)
  }

  /** `m` is the smallest element of `s`. */
  predicate IsMinimum(m: string, s: set<string>)
  {
    m in s && forall y :: y in s && y != m ==> StrLess(m, y)
  }

  lemma {:induction false} MinimumExists(s: set<string>)
    requires s != {}
    ensures exists m :: IsMinimum(m, s)
    decreases |s|
  {
    var x :| x in s;
    if s == {x} {
      assert IsMinimum(x, s);
    } else {
      MinimumExists(s - {x});
      var m :| IsMinimum(m, s - {x});
      StrLessTotal(x, m);
      if StrLess(x, m) {
        forall y | y in s && y != x ensures StrLess(x, y) {
          if y != m {
            StrLessTransitive(x, m, y);
          }
        }
        assert IsMinimum(x, s);
      } else {
        assert IsMinimum(m, s);
      }
    }
  }

  /** Two increasing listings of the same set are equal. */
  lemma {:induction false} ListsSortedUnique(r1: seq<string>, r2: seq<string>, s: set<string>)
    requires ListsSorted(r1, s) && ListsSorted(r2, s)
    ensures r1 == r2
    decreases |r1|
  {
    assert r1 != [] ==> r1[0] in s;
    assert r2 != [] ==> r2[0] in s;
    if r1 != [] && r2 != [] {
      assert r1[0] in s && r2[0] in s;
      if r1[0] != r2[0] {
        var i :| 0 <= i < |r2| && r2[i] == r1[0];
        var j :| 0 <= j < |r1| && r1[j] == r2[0];
        assert i > 0 && j > 0;
        StrLessTransitive(r1[0], r1[j], r1[0]);
        StrLessIrreflexive(r1[0]);
      }
      var rest := s - {r1[0]};
      forall x ensures x in r1[1..] <==> x in rest {
        if x in r1[1..] {
          var k :| 1 <= k < |r1| && r1[k] == x;
          StrLessIrreflexive(x);
        }
        if x in rest {
          var k :| 0 <= k < |r1| && r1[k] == x;
          assert k != 0;
        }
      }
      forall x ensures x in r2[1..] <==> x in rest {
        if x in r2[1..] {
          var k :| 1 <= k < |r2| && r2[k] == x;
          StrLessIrreflexive(x);
        }
        if x in rest {
          var k :| 0 <= k < |r2| && r2[k] == x;
          assert k != 0;
        }
      }
      ListsSortedUnique(r1[1..], r2[1..], rest);
    }
  }

  /** A set has at most one smallest element. */
  lemma MinimumUnique(s: set<string>)
    ensures forall a, b :: IsMinimum(a, s) && IsMinimum(b, s) ==> a == b
  {
    forall a, b | IsMinimum(a, s) && IsMinimum(b, s)
      ensures a == b
    {
      if a != b {
        StrLessTransitive(a, b, a);
        StrLessIrreflexive(a);
      }
    }
  }

  /** The increasing listing of a set of strings: `sorted(s)`. */
  function SortedOf(s: set<string>): (r: seq<string>)
    ensures ListsSorted(r, s)
    decreases |s|
  {
    if s == {} then []
    else
      MinimumExists(s);
      MinimumUnique(s);
      var m :| IsMinimum(m, s);
      var rest := SortedOf(s - {m});
      assert forall i :: 0 <= i < |rest| ==> rest[i] in rest && rest[i] in s - {m};
      [m] + rest
  }

  /** `sorted(s)` for a set of strings: repeatedly take the smallest remaining element. */
  method SortedListing(s: set<string>) returns (r: seq<string>)
    ensures ListsSorted(r, s) && r == SortedOf(s)
  {
    r := [];
    var rest := s;
    while rest != {}
      invariant forall x :: x in s <==> x in r || x in rest
      invariant forall x :: x in r ==> x !in rest
      invariant StrictlySorted(r)
      invariant forall i, y :: 0 <= i < |r| && y in rest ==> StrLess(r[i], y)
      decreases |rest|
    {
      MinimumExists(rest);
      var m :| IsMinimum(m, rest);
      r := r + [m];
      rest := rest - {m};
    }
    ListsSortedUnique(r, SortedOf(s), s);
  }

  /** The elements of `s` that `keep` accepts, in order. */
  function Filter<T>(s: seq<T>, keep: T -> bool): (r: seq<T>)
    ensures |r| <= |s|
  {
    if s == [] then [] else Filter(s[..|s| - 1], keep) + (if keep(s[|s| - 1]) then [s[|s| - 1]] else [])
  }

  lemma {:induction false} FilterMembers<T>(s: seq<T>, keep: T -> bool)
    ensures forall x :: x in Filter(s, keep) <==> x in s && keep(x)
  {
    if s != [] {
      FilterMembers(s[..|s| - 1], keep);
      assert s == s[..|s| - 1] + [s[|s| - 1]];
    }
  }

  lemma FilterIn<T>(s: seq<T>, keep: T -> bool, i: int)
    requires 0 <= i < |Filter(s, keep)|
    ensures Filter(s, keep)[i] in s && keep(Filter(s, keep)[i])
  {
    FilterMembers(s, keep);
    var r := Filter(s, keep);
    assert r[i] in r;
  }

  lemma {:induction false} FilterSorted<T>(s: seq<T>, keep: T -> bool, key: T -> real)
    requires SortedBy(s, key)
    ensures SortedBy(Filter(s, keep), key)
  {
    if s != [] {
      var init, last := s[..|s| - 1], s[|s| - 1];
      assert SortedBy(init, key);
      FilterSorted(init, keep, key);
      FilterMembers(init, keep);
      var fi := Filter(init, keep);
      var r := Filter(s, keep);
      if keep(last) {
        assert r == fi + [last];
        forall i, j | 0 <= i < j < |r| ensures key(r[i]) <= key(r[j]) {
          if j == |r| - 1 {
            assert r[i] == fi[i];
            FilterIn(init, keep, i);
            var k :| 0 <= k < |init| && init[k] == r[i];
            assert s[k] == r[i] && s[|s| - 1] == last;
          } else {
            assert r[i] == fi[i] && r[j] == fi[j];
          }
        }
      } else {
        assert r == fi;
      }
    }
  }

  /** `key` strictly rises along `s`: so `s` lists no element twice. */
  predicate IncreasingBy<T>(s: seq<T>, key: T -> int)
  {
    forall i, j :: 0 <= i < j < |s| ==> key(s[i]) < key(s[j])
  }

  /** Filtering keeps a strictly rising key strictly rising: the result is a subsequence in the original order. */
  lemma {:induction false} FilterIncreasing<T>(s: seq<T>, keep: T -> bool, key: T -> int)
    requires IncreasingBy(s, key)
    ensures IncreasingBy(Filter(s, keep), key)
  {
    if s != [] {
      var init, last := s[..|s| - 1], s[|s| - 1];
      assert IncreasingBy(init, key);
      FilterIncreasing(init, keep, key);
      var fi := Filter(init, keep);
      var r := Filter(s, keep);
      if keep(last) {
        assert r == fi + [last];
        forall i, j | 0 <= i < j < |r| ensures key(r[i]) < key(r[j]) {
          if j == |r| - 1 {
            assert r[i] == fi[i];
            FilterIn(init, keep, i);
            var k :| 0 <= k < |init| && init[k] == r[i];
            assert s[k] == r[i] && s[|s| - 1] == last;
          } else {
            assert r[i] == fi[i] && r[j] == fi[j];
          }
        }
      } else {
        assert r == fi;
      }
    }
  }

  /** Filtering a sorted copy keeps exactly the accepted elements of the original, still sorted. */
  lemma FilterOfSorted<T>(xs: seq<T>, keep: T -> bool, key: T -> real)
    ensures var r := Filter(SortBy(xs, key), keep);
      SortedBy(r, key) && forall x :: x in r <==> x in xs && keep(x)
  {
    var sorted := SortBy(xs, key);
    FilterMembers(sorted, keep);
    FilterSorted(sorted, keep, key);
    forall x ensures x in sorted <==> x in xs {
      assert x in sorted <==> x in multiset(sorted);
      assert x in xs <==> x in multiset(xs);
    }
  }

  /** `[f(xs[0], 0), f(xs[1], 1), …]`: what a loop appending `f(x, index)` for each element builds. */
  function Build<T, U>(xs: seq<T>, f: (T, nat) -> U): (r: seq<U>)
    ensures |r| == |xs|
  {
    if xs == [] then [] else Build(xs[..|xs| - 1], f) + [f(xs[|xs| - 1], |xs| - 1)]
  }

  /** Building one more element appends its image. */
  lemma BuildStep<T, U>(xs: seq<T>, i: nat, f: (T, nat) -> U)
    requires i < |xs|
    ensures Build(xs[..i + 1], f) == Build(xs[..i], f) + [f(xs[i], i)]
  {
    assert xs[..i + 1][..i] == xs[..i];
  }

  lemma {:induction false} BuildIndex<T, U>(xs: seq<T>, f: (T, nat) -> U)
    ensures forall i :: 0 <= i < |xs| ==> Build(xs, f)[i] == f(xs[i], i)
  {
    if xs != [] {
      BuildIndex(xs[..|xs| - 1], f);
    }
  }
}
