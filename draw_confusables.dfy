/**
 * The confusable-pair relation of the drawing recogniser: the module builds
 * a set of string keys `a + "\0" + b` from a list of pairs, both orders of
 * each pair, and `isConfusable` accepts equal characters or a stored key.
 */
module DrawConfusables {

  /** The listed pairs (same place of articulation, or visually close). प/फ is deliberately absent. */
  const ConfusablePairs: seq<(string, string)> := [
    ("क", "ख"), ("ग", "घ"), ("ङ", "ञ"),
    ("च", "छ"), ("ज", "झ"),
    ("ट", "ठ"), ("ड", "ढ"), ("ण", "न"),
    ("त", "थ"), ("द", "ध"), ("न", "ण"),
    ("ब", "भ"),
    ("ज", "ड"), ("ग", "ङ"), ("द", "ड"), ("ब", "व"), ("र", "ड"), ("घ", "ध")
  ]

  /** The separator of a key. */
  const Sep: char := '\0'

  /** The set key of an ordered pair. */
  function Key(a: string, b: string): (k: string)
    ensures |k| == |a| + 1 + |b| && k[|a|] == Sep
    ensures k[..|a|] == a && k[|a| + 1..] == b
  {
    a + [Sep] + b
  }

  predicate NoSep(s: string)
  {
    Sep !in s
  }

  /** Neither side of any listed pair contains the separator. */
  predicate PairsWithoutSep(pairs: seq<(string, string)>)
  {
    forall i :: 0 <= i < |pairs| ==> NoSep(pairs[i].0) && NoSep(pairs[i].1)
  }

  /**
   * A key built from separator-free strings is decoded uniquely, whatever
   * the other key's parts contain: the first separator of `Key(c, d)` sits
   * at `|c|` and it is its only one.
   */
  lemma KeyInjective(a: string, b: string, c: string, d: string)
    requires NoSep(c) && NoSep(d)
    requires Key(a, b) == Key(c, d)
    ensures a == c && b == d
  {
    var k := Key(c, d);
    if |a| != |c| {
      assert false;
    }
  }

  /** The keys stored after the first `n` pairs have been inserted, both orders each. */
  function PairKeys(pairs: seq<(string, string)>, n: nat): (s: set<string>)
    requires n <= |pairs|
    ensures |s| <= 2 * n
  {
    if n == 0 then {}
    else PairKeys(pairs, n - 1) + {Key(pairs[n - 1].0, pairs[n - 1].1), Key(pairs[n - 1].1, pairs[n - 1].0)}
  }

  /** The unordered pair {a, b} appears among the first `n` pairs. */
  predicate ListedUpTo(pairs: seq<(string, string)>, n: nat, a: string, b: string)
    requires n <= |pairs|
  {
    exists i :: 0 <= i < n && (pairs[i] == (a, b) || pairs[i] == (b, a))
  }

  /** A key is stored exactly when its two parts form a listed pair, in either order. */
  lemma {:induction false} PairKeysListed(pairs: seq<(string, string)>, n: nat, a: string, b: string)
    requires n <= |pairs| && PairsWithoutSep(pairs)
    ensures Key(a, b) in PairKeys(pairs, n) <==> ListedUpTo(pairs, n, a, b)
  {
    if n > 0 {
      PairKeysListed(pairs, n - 1, a, b);
      var p := pairs[n - 1];
      if Key(a, b) == Key(p.0, p.1) {
        KeyInjective(a, b, p.0, p.1);
      }
      if Key(a, b) == Key(p.1, p.0) {
        KeyInjective(a, b, p.1, p.0);
      }
      if ListedUpTo(pairs, n, a, b) && !ListedUpTo(pairs, n - 1, a, b) {
        assert pairs[n - 1] == (a, b) || pairs[n - 1] == (b, a);
      }
    }
  }

  /** The keys after `n + 1` pairs are those after `n` and both orders of the next pair. */
  lemma PairKeysStep(pairs: seq<(string, string)>, n: nat)
    requires n < |pairs|
    ensures PairKeys(pairs, n + 1) == PairKeys(pairs, n) + {Key(pairs[n].0, pairs[n].1), Key(pairs[n].1, pairs[n].0)}
  {
  }

  /** Module initialisation: insert both orders of every pair into an initially empty set. */
  method BuildPairSet(pairs: seq<(string, string)>) returns (pairSet: set<string>)
    ensures pairSet == PairKeys(pairs, |pairs|)
  {
    pairSet := {};
    var i := 0;
    while i < |pairs|
      invariant 0 <= i <= |pairs|
      invariant pairSet == PairKeys(pairs, i)
    {
      var p := pairs[i];
      pairSet := pairSet + {Key(p.0, p.1), Key(p.1, p.0)};
      PairKeysStep(pairs, i);
      i := i + 1;
    }
  }

  /** The set the module builds at load time. */
  const PairSet: set<string> := PairKeys(ConfusablePairs, |ConfusablePairs|)

  /** `isConfusable(a, b)` against a built key set. */
  predicate IsConfusableIn(pairSet: set<string>, a: string, b: string)
  {
    a == b || Key(a, b) in pairSet
  }

  predicate IsConfusable(a: string, b: string)
  {
    IsConfusableIn(PairSet, a, b)
  }

  lemma ListedPairsWithoutSep()
    ensures PairsWithoutSep(ConfusablePairs)
  {
  }

  /** Confusable exactly when equal (so the relation is reflexive) or listed as a pair in either order. */
  lemma ConfusableIff(a: string, b: string)
    ensures IsConfusable(a, b) <==> a == b || ListedUpTo(ConfusablePairs, |ConfusablePairs|, a, b)
  {
    ListedPairsWithoutSep();
    PairKeysListed(ConfusablePairs, |ConfusablePairs|, a, b);
  }

  /** Both orders are stored, so the relation is symmetric. */
  lemma ConfusableSymmetric(a: string, b: string)
    ensures IsConfusable(a, b) <==> IsConfusable(b, a)
  {
    ConfusableIff(a, b);
    ConfusableIff(b, a);
  }

  /** प and फ are distinct phonemes and are not accepted for each other. */
  lemma PaPhaNotConfusable()
    ensures !IsConfusable("प", "फ") && !IsConfusable("फ", "प")
  {
    ConfusableIff("प", "फ");
    ConfusableIff("फ", "प");
  }

  /** A listed pair is accepted in both orders, e.g. क and ख. */
  lemma KaKhaConfusable()
    ensures IsConfusable("क", "ख") && IsConfusable("ख", "क")
  {
    ConfusableIff("क", "ख");
    ConfusableSymmetric("क", "ख");
    assert ConfusablePairs[0] == ("क", "ख");
  }
}
