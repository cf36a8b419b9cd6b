/**
 * The ordering logic of the drill page: a phoneme's need for practice from
 * its card state in a mode, the deck of due phonemes with the neediest 70%
 * first, and the weak phonemes the page lists. Card states are the stored
 * JSON object, keyed `<phoneme id>:<mode>`, with each field optional.
 */
module DrillPage {
  import opened Wrappers
  import opened Tables
  import opened Sorting
  import opened DrillUtils

  /** A scheduler's stability, never negative. */
  type Stability = s: real | s >= 0.0

  /** The fields of a stored card state the page reads, each possibly missing. */
  datatype CardFields = CardFields(difficulty: Option<real>, stability: Option<Stability>, lapses: Option<real>)

  type CardStates = Table<CardFields>

  /** The need of a card that has a stored state: difficulty 5, stability 0 and no lapses when missing. */
  function StateNeed(st: CardFields): real
  {
    var d := st.difficulty.GetOr(5.0);
    var s: real := st.stability.GetOr(0.0);
    var l := st.lapses.GetOr(0.0);
    d + l * 3.0 + (if s < 1.0 then 8.0 else 0.0) + 5.0 / (1.0 + s)
  }

  /** `getNeedScore`: 5 for a phoneme without a state in the mode. */
  function NeedScore(p: Phoneme, mode: string, cardStates: CardStates): (n: real)
    ensures !HasKey(cardStates, p.id + ":" + mode) ==> n == 5.0
  {
    match Get(cardStates, p.id + ":" + mode)
    case None => 5.0
    case Some(st) => StateNeed(st)
  }

  /**
   * The need grows with difficulty and lapses and falls with stability,
   * with a step of 8 below stability 1; an unseen card (5) ranks below
   * any recorded card with no lapses and at least the default difficulty.
   */
  lemma StateNeedOrder(a: CardFields, b: CardFields)
    ensures var sa: real := a.stability.GetOr(0.0);
      var sb: real := b.stability.GetOr(0.0);
      (a.difficulty.GetOr(5.0) >= b.difficulty.GetOr(5.0) && a.lapses.GetOr(0.0) >= b.lapses.GetOr(0.0) && sa <= sb ==>
         StateNeed(a) >= StateNeed(b))
    ensures var sa: real := a.stability.GetOr(0.0);
      sa < 1.0 ==> StateNeed(a) > a.difficulty.GetOr(5.0) + a.lapses.GetOr(0.0) * 3.0 + 10.5
    ensures var sa: real := a.stability.GetOr(0.0);
      StateNeed(a) > a.difficulty.GetOr(5.0) + a.lapses.GetOr(0.0) * 3.0
      && StateNeed(a) <= a.difficulty.GetOr(5.0) + a.lapses.GetOr(0.0) * 3.0 + 13.0
    ensures a.difficulty.GetOr(5.0) >= 5.0 && a.lapses.GetOr(0.0) >= 0.0 ==> StateNeed(a) > 5.0
  {
    var sa: real := a.stability.GetOr(0.0);
    var sb: real := b.stability.GetOr(0.0);
    if sa <= sb {
      assert 5.0 / (1.0 + sa) >= 5.0 / (1.0 + sb) by {
        ReciprocalFalls(1.0 + sa, 1.0 + sb);
      }
    }
    ReciprocalFalls(1.0 + sa, 1.0);
    if sa < 1.0 {
      ReciprocalFalls(1.0 + sa, 2.0);
    }
  }

  /** `5 / x` falls as `x` grows, and stays positive. */
  lemma ReciprocalFalls(x: real, y: real)
    requires 0.0 < y && 0.0 < x
    ensures x <= y ==> 5.0 / x >= 5.0 / y
    ensures y <= x ==> 5.0 / x <= 5.0 / y
    ensures 5.0 / x > 0.0
  {
    var qx, qy := 5.0 / x, 5.0 / y;
    assert qx * x == 5.0 && qy * y == 5.0;
  }

  /** The nine drill keys of combined mode. */
  const CombinedModes: seq<string> := [
    "hear:easy", "hear:medium", "hear:hard",
    "see-say:easy", "see-say:medium", "see-say:hard",
    "hear-say:easy", "hear-say:medium", "hear-say:hard"]

  /** `Math.max(...modes.map(m => getNeedScore(p, m, cardStates)))` for a non-empty list of modes. */
  function MaxNeed(p: Phoneme, modes: seq<string>, cardStates: CardStates): (n: real)
    requires |modes| > 0
    ensures exists i :: 0 <= i < |modes| && n == NeedScore(p, modes[i], cardStates)
    ensures forall i :: 0 <= i < |modes| ==> NeedScore(p, modes[i], cardStates) <= n
  {
    var here := NeedScore(p, modes[0], cardStates);
    if |modes| == 1 then here
    else
      var rest := MaxNeed(p, modes[1..], cardStates);
      assert forall i :: 1 <= i < |modes| ==> modes[i] == modes[1..][i - 1];
      if here >= rest then here else rest
  }

  /** `getNeedScoreCombined`: the largest need of the phoneme over the combined modes. */
  function NeedCombined(p: Phoneme, cardStates: CardStates): (n: real)
    ensures exists m :: m in CombinedModes && n == NeedScore(p, m, cardStates)
    ensures forall m :: m in CombinedModes ==> NeedScore(p, m, cardStates) <= n
  {
    MaxNeed(p, CombinedModes, cardStates)
  }

  /** `getNeed`: the combined need in combined mode, the mode's own need otherwise. */
  function Need(p: Phoneme, mode: string, cardStates: CardStates): real
  {
    if mode == "combined" then NeedCombined(p, cardStates) else NeedScore(p, mode, cardStates)
  }

  /** The sort key of `(a, b) => b.need - a.need`: needier first. */
  function ByNeed(mode: string, cardStates: CardStates): Phoneme -> real
  {
    p => -Need(p, mode, cardStates)
  }

  /** A phoneme without any state in the drilled modes has need 5, in either kind of mode. */
  lemma UnseenNeed(p: Phoneme, mode: string, cardStates: CardStates)
    requires mode == "combined" ==> forall m :: m in CombinedModes ==> !HasKey(cardStates, p.id + ":" + m)
    requires mode != "combined" ==> !HasKey(cardStates, p.id + ":" + mode)
    ensures Need(p, mode, cardStates) == 5.0
  {
    if mode == "combined" {
      assert forall m :: m in CombinedModes ==> NeedScore(p, m, cardStates) == 5.0;
    }
  }

  /** `Math.ceil(n * 0.7)`, the size of the needier tier. */
  function TopTier(n: nat): (k: nat)
    ensures k <= n && 10 * k >= 7 * n && 10 * (k - 1) < 7 * n
  {
    (7 * n + 9) / 10
  }

  /**
   * Shuffling the first `k` of a sorted list and the rest separately gives
   * a permutation whose first `k` are the first `k` of the list, each with
   * a key no larger than any element after them.
   */
  lemma TierSplit<T>(ordered: seq<T>, key: T -> real, k: nat, top: seq<T>, rest: seq<T>)
    requires SortedBy(ordered, key) && k <= |ordered|
    requires multiset(top) == multiset(ordered[..k]) && multiset(rest) == multiset(ordered[k..])
    requires |top| == k
    ensures multiset(top + rest) == multiset(ordered) && |top + rest| == |ordered|
    ensures (top + rest)[..k] == top
    ensures forall i, j :: 0 <= i < k <= j < |top + rest| ==> key((top + rest)[i]) <= key((top + rest)[j])
  {
    assert ordered == ordered[..k] + ordered[k..];
    assert (top + rest)[..k] == top;
    forall i, j | 0 <= i < k <= j < |top + rest| ensures key((top + rest)[i]) <= key((top + rest)[j]) {
      assert (top + rest)[i] == top[i] && (top + rest)[j] == rest[j - k];
      assert top[i] in multiset(ordered[..k]);
      assert rest[j - k] in multiset(ordered[k..]);
      var a :| 0 <= a < k && ordered[..k][a] == top[i];
      var b :| 0 <= b < |ordered| - k && ordered[k..][b] == rest[j - k];
      assert ordered[k + b] == rest[j - k];
    }
  }

  /**
   * The head of a sorted copy: elements of the input, in key order, and
   * every element left out has a key no smaller than any kept one; only
   * the limit cuts the head short.
   */
  lemma SortedHead<T>(xs: seq<T>, key: T -> real, limit: int)
    ensures var r := SliceTo(SortBy(xs, key), limit);
      && (limit >= 0 ==> |r| <= limit)
      && (forall p :: p in r ==> p in xs)
      && (forall i, j :: 0 <= i < j < |r| ==> key(r[i]) <= key(r[j]))
      && (forall p :: p in xs && p !in r ==> (limit >= 0 ==> |r| == limit) && forall q :: q in r ==> key(q) <= key(p))
  {
    var sorted := SortBy(xs, key);
    var r := SliceTo(sorted, limit);
    forall p | p in r ensures p in xs {
      assert p in multiset(sorted);
    }
    forall i, j | 0 <= i < j < |r| ensures key(r[i]) <= key(r[j]) {
      assert r[i] == sorted[i] && r[j] == sorted[j];
    }
    forall p | p in xs && p !in r
      ensures (limit >= 0 ==> |r| == limit) && forall q :: q in r ==> key(q) <= key(p)
    {
      assert p in multiset(xs);
      var b :| 0 <= b < |sorted| && sorted[b] == p;
      assert b >= |r|;
      forall q | q in r ensures key(q) <= key(p) {
        var a :| 0 <= a < |r| && r[a] == q;
        assert sorted[a] == q;
      }
    }
  }

  /**
   * `buildWeightedDeck`: sort the due phonemes by need, neediest first
   * (ties in input order), then shuffle the first ⌈0.7 n⌉ and the rest
   * separately and put them one after the other. The deck is a
   * permutation of the due phonemes whose top tier is exactly the top tier
   * of the sorted list, so each of its phonemes is at least as needy as
   * every phoneme after the tier.
   */
  method BuildWeightedDeck(due: seq<Phoneme>, cardStates: CardStates, mode: string, draws: nat -> real, moreDraws: nat -> real)
    returns (deck: seq<Phoneme>)
    requires UnitDraws(draws) && UnitDraws(moreDraws)
    ensures multiset(deck) == multiset(due) && |deck| == |due|
    ensures var k := TopTier(|due|);
      multiset(deck[..k]) == multiset(SortBy(due, ByNeed(mode, cardStates))[..k])
    ensures var k := TopTier(|due|);
      forall i, j :: 0 <= i < k <= j < |deck| ==> Need(deck[i], mode, cardStates) >= Need(deck[j], mode, cardStates)
  {
    var key := ByNeed(mode, cardStates);
    var ordered := SortBy(due, key);
    var k := TopTier(|ordered|);
    var top := Shuffle(ordered[..k], draws);
    var rest := Shuffle(ordered[k..], moreDraws);
    deck := top + rest;
    TierSplit(ordered, key, k, top, rest);
  }

  /** Keeps the phonemes whose need exceeds 6. */
  function IsWeak(mode: string, cardStates: CardStates): Phoneme -> bool
  {
    p => Need(p, mode, cardStates) > 6.0
  }

  /** `getWeakPhonemes`: the phonemes with need above 6, neediest first, cut at `limit` (`slice(0, limit)`). */
  function WeakPhonemes(phonemes: seq<Phoneme>, cardStates: CardStates, mode: string, limit: int): seq<Phoneme>
  {
    SliceTo(SortBy(Filter(phonemes, IsWeak(mode, cardStates)), ByNeed(mode, cardStates)), limit)
  }

  /**
   * The weak phonemes are phonemes of the list with need above 6, in
   * non-increasing need, at most `limit` of them; every weak phoneme left
   * out is no needier than any listed one, and the list is cut short only
   * by the limit.
   */
  lemma WeakPhonemesSpec(phonemes: seq<Phoneme>, cardStates: CardStates, mode: string, limit: int)
    ensures var r := WeakPhonemes(phonemes, cardStates, mode, limit);
      && (limit >= 0 ==> |r| <= limit)
      && (forall p :: p in r ==> p in phonemes && Need(p, mode, cardStates) > 6.0)
      && (forall i, j :: 0 <= i < j < |r| ==> Need(r[i], mode, cardStates) >= Need(r[j], mode, cardStates))
      && (forall p :: p in phonemes && Need(p, mode, cardStates) > 6.0 && p !in r ==>
            (limit >= 0 ==> |r| == limit) && forall q :: q in r ==> Need(q, mode, cardStates) >= Need(p, mode, cardStates))
  {
    var weak := Filter(phonemes, IsWeak(mode, cardStates));
    var key := ByNeed(mode, cardStates);
    FilterMembers(phonemes, IsWeak(mode, cardStates));
    SortedHead(weak, key, limit);
  }

  /** A phoneme never drilled in the mode (or in any combined mode) is never weak. */
  lemma UnseenNotWeak(phonemes: seq<Phoneme>, cardStates: CardStates, mode: string, limit: int, p: Phoneme)
    requires mode == "combined" ==> forall m :: m in CombinedModes ==> !HasKey(cardStates, p.id + ":" + m)
    requires mode != "combined" ==> !HasKey(cardStates, p.id + ":" + mode)
    ensures p !in WeakPhonemes(phonemes, cardStates, mode, limit)
  {
    UnseenNeed(p, mode, cardStates);
    WeakPhonemesSpec(phonemes, cardStates, mode, limit);
  }
}
