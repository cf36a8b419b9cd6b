/**
 * Drill helpers: the unit each phoneme belongs to, the phonemes that share
 * it, and the answer options a drill offers: the correct phoneme among
 * distractors, drawn from its own unit when the unit is large enough and
 * topped up from the other phonemes when it is not.
 *
 * `Math.random()` is a parameter. The Fisher-Yates shuffle takes one draw in
 * [0, 1) per position. A sort with the comparator `() => Math.random() - 0.5`
 * leaves the order to the engine, so it is modelled as an arbitrary
 * permutation (`Scramble`).
 */
module DrillUtils {
  import opened Wrappers
  import opened Sorting

  /** A phoneme, reduced to the fields the drills read or compare. */
  datatype Phoneme = Phoneme(id: string, devanagari: string, iast: string)

  /** An entry of `units.json`. */
  datatype Unit = Unit(id: string, phonemeIds: seq<string>)

  // ---------------------------------------------------------------------------
  // Units
  // ---------------------------------------------------------------------------

  /** `m` after `set(pid, v)` for each `pid` of `ids`, in order. */
  function Assign(m: map<string, string>, ids: seq<string>, v: string): map<string, string>
  {
    if ids == [] then m else Assign(m, ids[..|ids| - 1], v)[ids[|ids| - 1] := v]
  }

  /** The assigned ids map to `v`; every other key keeps its entry. */
  lemma {:induction false} AssignSpec(m: map<string, string>, ids: seq<string>, v: string, x: string)
    ensures x in Assign(m, ids, v) <==> x in m || x in ids
    ensures x in ids ==> Assign(m, ids, v)[x] == v
    ensures x !in ids && x in m ==> Assign(m, ids, v)[x] == m[x]
  {
    if ids != [] {
      var init := ids[..|ids| - 1];
      AssignSpec(m, init, v, x);
      assert forall y :: y in ids <==> y in init || y == ids[|ids| - 1];
    }
  }

  /** `phonemeToUnit` after the module's loops over `units`: later units overwrite earlier ones. */
  function UnitMap(units: seq<Unit>): map<string, string>
  {
    if units == [] then map[]
    else
      var last := units[|units| - 1];
      Assign(UnitMap(units[..|units| - 1]), last.phonemeIds, last.id)
  }

  /** The module initialiser: `set(pid, u.id)` for every id of every unit, in order. */
  method BuildUnitMap(units: seq<Unit>) returns (m: map<string, string>)
    ensures m == UnitMap(units)
  {
    m := map[];
    for i := 0 to |units|
      invariant m == UnitMap(units[..i])
    {
      var u := units[i];
      ghost var before := m;
      for j := 0 to |u.phonemeIds|
        invariant m == Assign(before, u.phonemeIds[..j], u.id)
      {
        assert u.phonemeIds[..j + 1][..j] == u.phonemeIds[..j];
        m := m[u.phonemeIds[j] := u.id];
      }
      assert u.phonemeIds[..|u.phonemeIds|] == u.phonemeIds;
      assert units[..i + 1][..i] == units[..i];
    }
    assert units[..|units|] == units;
  }

  /** Unit `i` is the last unit that lists `pid`. */
  predicate LastListing(units: seq<Unit>, pid: string, i: int)
  {
    0 <= i < |units| && pid in units[i].phonemeIds
    && forall k :: i < k < |units| ==> pid !in units[k].phonemeIds
  }

  /** A phoneme maps to a unit exactly when some unit lists it. */
  lemma {:induction false} UnitMapDomain(units: seq<Unit>, pid: string)
    ensures pid in UnitMap(units) <==> exists i :: 0 <= i < |units| && pid in units[i].phonemeIds
  {
    if units != [] {
      var init, last := units[..|units| - 1], units[|units| - 1];
      UnitMapDomain(init, pid);
      AssignSpec(UnitMap(init), last.phonemeIds, last.id, pid);
      if exists i :: 0 <= i < |units| && pid in units[i].phonemeIds {
        var i :| 0 <= i < |units| && pid in units[i].phonemeIds;
        if i < |units| - 1 {
          assert init[i] == units[i];
        }
      }
    }
  }

  /** A mapped phoneme has a last listing unit, and maps to that unit's id. */
  lemma {:induction false} UnitMapLast(units: seq<Unit>, pid: string)
    ensures pid in UnitMap(units) ==> exists i :: LastListing(units, pid, i)
    ensures forall i :: LastListing(units, pid, i) ==> pid in UnitMap(units) && UnitMap(units)[pid] == units[i].id
  {
    if units != [] {
      var init, last := units[..|units| - 1], units[|units| - 1];
      UnitMapLast(init, pid);
      AssignSpec(UnitMap(init), last.phonemeIds, last.id, pid);
      if pid !in last.phonemeIds {
        forall i | LastListing(units, pid, i) ensures LastListing(init, pid, i) {
        }
        if pid in UnitMap(init) {
          var j :| LastListing(init, pid, j);
          assert LastListing(units, pid, j);
        }
      } else {
        assert LastListing(units, pid, |units| - 1);
      }
    }
  }

  /** A phoneme maps to a unit exactly when some unit lists it, and then to the last unit that does. */
  lemma UnitMapSpec(units: seq<Unit>, pid: string)
    ensures pid in UnitMap(units) <==> exists i :: 0 <= i < |units| && pid in units[i].phonemeIds
    ensures pid in UnitMap(units) ==> exists i :: LastListing(units, pid, i)
    ensures forall i :: LastListing(units, pid, i) ==> pid in UnitMap(units) && UnitMap(units)[pid] == units[i].id
  {
    UnitMapDomain(units, pid);
    UnitMapLast(units, pid);
  }

  /** `getPhonemeUnit`. */
  function PhonemeUnit(units: seq<Unit>, pid: string): (r: Option<string>)
    ensures r.None? <==> forall i :: 0 <= i < |units| ==> pid !in units[i].phonemeIds
    ensures forall i :: LastListing(units, pid, i) ==> r == Some(units[i].id)
  {
    UnitMapSpec(units, pid);
    var m := UnitMap(units);
    if pid in m then Some(m[pid]) else None
  }

  /** `units.find(u => u.id === id)`: the first unit with that id. */
  function FindUnit(units: seq<Unit>, id: string): (r: Option<Unit>)
    ensures r.None? <==> forall i :: 0 <= i < |units| ==> units[i].id != id
    ensures r.Some? ==> exists i :: 0 <= i < |units| && units[i] == r.value && r.value.id == id
  {
    if units == [] then None
    else if units[0].id == id then Some(units[0])
    else
      var r := FindUnit(units[1..], id);
      assert forall i :: 1 <= i < |units| ==> units[i] == units[1..][i - 1];
      r
  }

  /** No two units share an id. */
  predicate DistinctUnitIds(units: seq<Unit>)
  {
    forall i, j :: 0 <= i < j < |units| ==> units[i].id != units[j].id
  }

  /** Keeps the phonemes of `unit` other than `pid`. */
  function InUnitExcept(unit: Unit, pid: string): Phoneme -> bool
  {
    (p: Phoneme) => p.id in unit.phonemeIds && p.id != pid
  }

  /**
   * `getSameGroupPhonemes`: the phonemes listed in the unit `pid` maps to,
   * other than `pid` itself, in the order of `all`; none when `pid` maps to
   * no unit or to an empty unit id (which is falsy).
   */
  function SameGroup(units: seq<Unit>, pid: string, all: seq<Phoneme>): (r: seq<Phoneme>)
  {
    var m := UnitMap(units);
    if pid !in m || m[pid] == "" then []
    else
      match FindUnit(units, m[pid])
      case None => []
      case Some(unit) => Filter(all, InUnitExcept(unit, pid))
  }

  /**
   * The siblings are phonemes of `all` other than `pid`; an unlisted
   * phoneme has none; and with distinct unit ids they are exactly the
   * phonemes of the last unit listing `pid`, unless that unit's id is empty.
   */
  lemma SameGroupSpec(units: seq<Unit>, pid: string, all: seq<Phoneme>)
    ensures forall p :: p in SameGroup(units, pid, all) ==> p in all && p.id != pid
    ensures (forall i :: 0 <= i < |units| ==> pid !in units[i].phonemeIds) ==> SameGroup(units, pid, all) == []
    ensures forall i :: LastListing(units, pid, i) && units[i].id == "" ==> SameGroup(units, pid, all) == []
    ensures DistinctUnitIds(units) ==> forall i :: LastListing(units, pid, i) && units[i].id != "" ==>
      forall p :: p in SameGroup(units, pid, all) <==> p in all && p.id != pid && p.id in units[i].phonemeIds
  {
    UnitMapSpec(units, pid);
    var m := UnitMap(units);
    if pid in m && m[pid] != "" {
      var last :| LastListing(units, pid, last);
      assert units[last].id == m[pid];
      var f := FindUnit(units, m[pid]);
      FilterMembers(all, InUnitExcept(f.value, pid));
      if DistinctUnitIds(units) {
        forall i | LastListing(units, pid, i) && units[i].id != ""
          ensures f.value == units[i]
        {
          var k :| 0 <= k < |units| && units[k] == f.value && f.value.id == m[pid];
          assert units[k].id == units[i].id;
        }
      }
    }
  }

  // ---------------------------------------------------------------------------
  // Randomness
  // ---------------------------------------------------------------------------

  /** Successive results of `Math.random()`: each in [0, 1). */
  ghost predicate UnitDraws(draws: nat -> real)
  {
    forall i: nat :: 0.0 <= draws(i) < 1.0
  }

  /** `Math.floor(r * n)` for a draw `r`: an index below `n`. */
  function RandomIndex(r: real, n: nat): (j: int)
    requires 0.0 <= r < 1.0 && n > 0
    ensures 0 <= j < n
  {
    assert r * (n as real) < n as real by {
      assert (1.0 - r) * (n as real) > 0.0;
    }
    (r * (n as real)).Floor
  }

  /**
   * `shuffle` (Fisher-Yates on a copy): from the last position down to the
   * second, swap with a position at or below it chosen by the draw for
   * that position. The result is a permutation of the input.
   */
  method Shuffle<T>(arr: seq<T>, draws: nat -> real) returns (out: seq<T>)
    requires UnitDraws(draws)
    ensures multiset(out) == multiset(arr) && |out| == |arr|
  {
    if |arr| == 0 {
      return [];
    }
    var a := new T[|arr|](k requires 0 <= k < |arr| => arr[k]);
    assert a[..] == arr;
    var i := |arr| - 1;
    while i > 0
      invariant 0 <= i < |arr| && a.Length == |arr|
      invariant multiset(a[..]) == multiset(arr)
    {
      var j := RandomIndex(draws(i), i + 1);
      a[i], a[j] := a[j], a[i];
      i := i - 1;
    }
    out := a[..];
  }

  /** `[...xs].sort(() => Math.random() - 0.5)`: some permutation of `xs`. */
  method Scramble<T(==)>(xs: seq<T>) returns (ys: seq<T>)
    ensures multiset(ys) == multiset(xs) && |ys| == |xs|
  {
    assert multiset(xs) == multiset(xs);
    ys :| multiset(ys) == multiset(xs);
    assert |ys| == |multiset(ys)| == |multiset(xs)| == |xs|;
  }

  // ---------------------------------------------------------------------------
  // Options
  // ---------------------------------------------------------------------------

  /** `xs.slice(0, end)`: a negative end counts back from the length. */
  function SliceTo<T>(xs: seq<T>, end: int): (r: seq<T>)
    ensures end >= 0 ==> r == Take(xs, end)
    ensures end < 0 ==> |r| == (if |xs| + end > 0 then |xs| + end else 0)
    ensures r == xs[..|r|]
  {
    if end >= 0 then Take(xs, end)
    else if |xs| + end > 0 then xs[..|xs| + end]
    else []
  }

  /** `!!xs.find(x => x.id === id)`. */
  predicate HasId(xs: seq<Phoneme>, id: string)
  {
    exists x :: x in xs && x.id == id
  }

  /** The picks after the `forEach` over `others`: each is added while fewer than `need` and its id is new. */
  function TopUp(picks: seq<Phoneme>, others: seq<Phoneme>, need: int): seq<Phoneme>
  {
    if others == [] then picks
    else
      var before := TopUp(picks, others[..|others| - 1], need);
      var p := others[|others| - 1];
      if |before| < need && !HasId(before, p.id) then before + [p] else before
  }

  /**
   * Topping up keeps the starting picks as a prefix, never grows past
   * `need`, and adds only phonemes of `others` whose ids were not yet picked.
   */
  lemma {:induction false} TopUpAdds(picks: seq<Phoneme>, others: seq<Phoneme>, need: int)
    requires |picks| <= need
    ensures var r := TopUp(picks, others, need);
      && |picks| <= |r| <= need
      && r[..|picks|] == picks
      && (forall k :: |picks| <= k < |r| ==> r[k] in others && !HasId(r[..k], r[k].id))
  {
    if others != [] {
      var init, p := others[..|others| - 1], others[|others| - 1];
      TopUpAdds(picks, init, need);
      var before := TopUp(picks, init, need);
      var r := TopUp(picks, others, need);
      if |before| < need && !HasId(before, p.id) {
        assert r[..|before|] == before;
        forall k | |picks| <= k < |before| ensures r[k] in others && !HasId(r[..k], r[k].id) {
          assert r[k] == before[k] && r[..k] == before[..k];
          assert before[k] in init;
        }
      } else {
        forall k | |picks| <= k < |r| ensures r[k] in others {
          assert r[k] in init;
        }
      }
    }
  }

  /** Topping up stops short of `need` only when every phoneme of `others` has its id picked. */
  lemma {:induction false} TopUpComplete(picks: seq<Phoneme>, others: seq<Phoneme>, need: int)
    ensures var r := TopUp(picks, others, need);
      |r| < need ==> forall p :: p in others ==> HasId(r, p.id)
  {
    if others != [] {
      var init, p := others[..|others| - 1], others[|others| - 1];
      TopUpComplete(picks, init, need);
      var before := TopUp(picks, init, need);
      var r := TopUp(picks, others, need);
      if |r| < need {
        assert |before| < need;
        forall q | q in others ensures HasId(r, q.id) {
          if q != p {
            assert q in init;
            var x :| x in before && x.id == q.id;
            assert x in r;
          } else if !HasId(before, p.id) {
            assert p in r;
          }
        }
      }
    }
  }

  /** Both halves of the top-up's contract. */
  lemma TopUpSpec(picks: seq<Phoneme>, others: seq<Phoneme>, need: int)
    requires |picks| <= need
    ensures var r := TopUp(picks, others, need);
      && |picks| <= |r| <= need
      && r[..|picks|] == picks
      && (forall k :: |picks| <= k < |r| ==> r[k] in others && !HasId(r[..k], r[k].id))
      && (|r| < need ==> forall p :: p in others ==> HasId(r, p.id))
  {
    TopUpAdds(picks, others, need);
    TopUpComplete(picks, others, need);
  }

  /** The `forEach` of the option builders, as the loop it is. */
  method TopUpPicks(siblings: seq<Phoneme>, others: seq<Phoneme>, need: int) returns (picks: seq<Phoneme>)
    ensures picks == TopUp(siblings, others, need)
  {
    picks := siblings;
    for k := 0 to |others|
      invariant picks == TopUp(siblings, others[..k], need)
    {
      assert others[..k + 1][..k] == others[..k];
      var p := others[k];
      if |picks| < need && !HasId(picks, p.id) {
        picks := picks + [p];
      }
    }
    assert others[..|others|] == others;
  }

  /** Keeps the phonemes whose id differs from `id`. */
  function OtherId(id: string): Phoneme -> bool
  {
    (p: Phoneme) => p.id != id
  }

  /**
   * Options for a drill: the correct phoneme exactly once, every other
   * option a phoneme of `all` with another id, and (for a positive count)
   * at most `count` options.
   */
  predicate WellFormedOptions(r: seq<Phoneme>, correct: Phoneme, all: seq<Phoneme>, count: int)
  {
    multiset(r)[correct] == 1
    && (forall p :: p in r && p != correct ==> p in all && p.id != correct.id)
    && (count >= 1 ==> |r| <= count)
  }

  /** `[correct, ...picks]` in any order is well formed when the picks are. */
  lemma OptionsFromPicks(r: seq<Phoneme>, correct: Phoneme, picks: seq<Phoneme>, all: seq<Phoneme>, count: int)
    requires multiset(r) == multiset([correct] + picks)
    requires forall p :: p in picks ==> p in all && p.id != correct.id
    requires count >= 1 ==> |picks| <= count - 1
    ensures WellFormedOptions(r, correct, all, count)
  {
    assert |r| == |[correct] + picks|;
    assert correct !in picks;
    assert multiset([correct] + picks) == multiset{correct} + multiset(picks);
    forall p | p in r && p != correct ensures p in picks {
      assert p in multiset(r);
    }
  }

  /** The distractor pool when the unit is too small: the siblings topped up from the other phonemes. */
  function Pool(siblings: seq<Phoneme>, correct: Phoneme, all: seq<Phoneme>, need: int): seq<Phoneme>
  {
    TopUp(siblings, Filter(all, OtherId(correct.id)), need)
  }

  /** Every phoneme of the pool is a phoneme of `all` with another id than the correct one. */
  lemma PoolMembers(units: seq<Unit>, correct: Phoneme, all: seq<Phoneme>, need: int)
    requires |SameGroup(units, correct.id, all)| < need
    ensures var pool := Pool(SameGroup(units, correct.id, all), correct, all, need);
      |pool| <= need
      && (forall p :: p in pool ==> p in all && p.id != correct.id)
      && (|pool| < need ==> forall p :: p in all && p.id != correct.id ==> HasId(pool, p.id))
  {
    var siblings := SameGroup(units, correct.id, all);
    var others := Filter(all, OtherId(correct.id));
    SameGroupSpec(units, correct.id, all);
    FilterMembers(all, OtherId(correct.id));
    TopUpSpec(siblings, others, need);
    var pool := TopUp(siblings, others, need);
    forall p | p in pool ensures p in all && p.id != correct.id {
      var k :| 0 <= k < |pool| && pool[k] == p;
      if k < |siblings| {
        assert pool[k] == siblings[k];
      }
    }
  }

  /**
   * `getSameGroupOptions`: with enough siblings, `count - 1` of them in
   * random order; otherwise the siblings topped up from the rest; the
   * correct phoneme is added and the whole scrambled. Whenever the unit is
   * large enough, every distractor is a sibling; a count of zero or less
   * still yields the correct phoneme (and `slice(0, need)` with a negative
   * `need` drops siblings from the end instead of taking none).
   */
  method SameGroupOptions(units: seq<Unit>, correct: Phoneme, all: seq<Phoneme>, count: int) returns (r: seq<Phoneme>)
    ensures WellFormedOptions(r, correct, all, count)
    ensures var siblings := SameGroup(units, correct.id, all);
      |siblings| >= count - 1 ==>
        |r| == 1 + |SliceTo(siblings, count - 1)| && forall p :: p in r && p != correct ==> p in siblings
    ensures count >= 1 && |SameGroup(units, correct.id, all)| >= count - 1 ==> |r| == count
    ensures var siblings := SameGroup(units, correct.id, all);
      |siblings| < count - 1 ==> multiset(r) == multiset([correct] + Pool(siblings, correct, all, count - 1))
  {
    var siblings := SameGroup(units, correct.id, all);
    SameGroupSpec(units, correct.id, all);
    var need := count - 1;
    if |siblings| >= need {
      var shuffled := Scramble(siblings);
      var picks := SliceTo(shuffled, need);
      assert forall p :: p in picks ==> p in multiset(shuffled);
      r := Scramble([correct] + picks);
      OptionsFromPicks(r, correct, picks, all, count);
      forall p | p in r && p != correct ensures p in siblings {
        assert p in multiset([correct] + picks);
        assert p in multiset(shuffled);
      }
    } else {
      var others := Filter(all, OtherId(correct.id));
      var picks := TopUpPicks(siblings, others, need);
      PoolMembers(units, correct, all, need);
      r := Scramble([correct] + SliceTo(picks, need));
      assert SliceTo(picks, need) == picks;
      OptionsFromPicks(r, correct, picks, all, count);
    }
  }

  /**
   * `getRandomOptions`: `count - 1` of the other phonemes in shuffled order,
   * and the correct one, shuffled again. For a positive count there are
   * `count` options, or all phonemes with another id when there are fewer.
   */
  method RandomOptions(correct: Phoneme, all: seq<Phoneme>, count: int, draws: nat -> real, moreDraws: nat -> real)
    returns (r: seq<Phoneme>)
    requires UnitDraws(draws) && UnitDraws(moreDraws)
    ensures WellFormedOptions(r, correct, all, count)
    ensures var others := Filter(all, OtherId(correct.id));
      count >= 1 ==> |r| == 1 + (if |others| < count - 1 then |others| else count - 1)
    ensures multiset(r) - multiset{correct} <= multiset(Filter(all, OtherId(correct.id)))
  {
    var picks := RandomPicks(correct, all, count, draws);
    r := Shuffle([correct] + picks, moreDraws);
    OptionsFromPicks(r, correct, picks, all, count);
    assert multiset(r) == multiset{correct} + multiset(picks);
  }

  /** `shuffle(others).slice(0, count - 1)`: some of the other phonemes, each at most as often as it occurs. */
  method RandomPicks(correct: Phoneme, all: seq<Phoneme>, count: int, draws: nat -> real) returns (picks: seq<Phoneme>)
    requires UnitDraws(draws)
    ensures multiset(picks) <= multiset(Filter(all, OtherId(correct.id)))
    ensures forall p :: p in picks ==> p in all && p.id != correct.id
    ensures var others := Filter(all, OtherId(correct.id));
      count >= 1 ==> |picks| == (if |others| < count - 1 then |others| else count - 1)
  {
    var others := Filter(all, OtherId(correct.id));
    FilterMembers(all, OtherId(correct.id));
    var shuffled := Shuffle(others, draws);
    picks := SliceTo(shuffled, count - 1);
    PrefixSubMultiset(shuffled, |picks|);
    forall p | p in picks ensures p in all && p.id != correct.id {
      assert p in multiset(picks);
      assert p in multiset(others);
    }
  }

  /** A prefix holds no element more often than the whole sequence. */
  lemma PrefixSubMultiset<T>(xs: seq<T>, k: nat)
    requires k <= |xs|
    ensures multiset(xs[..k]) <= multiset(xs)
  {
    assert xs == xs[..k] + xs[k..];
    assert multiset(xs) == multiset(xs[..k]) + multiset(xs[k..]);
  }

  /**
   * `getSameGroupRomanOptions`: as `getSameGroupOptions`, but the siblings
   * are taken in their order (the first `count - 1`) and the options are
   * shuffled with Fisher-Yates.
   */
  method SameGroupRomanOptions(units: seq<Unit>, correct: Phoneme, all: seq<Phoneme>, count: int, draws: nat -> real)
    returns (r: seq<Phoneme>)
    requires UnitDraws(draws)
    ensures WellFormedOptions(r, correct, all, count)
    ensures var siblings := SameGroup(units, correct.id, all);
      |siblings| >= count - 1 ==> multiset(r) == multiset([correct] + SliceTo(siblings, count - 1))
    ensures var siblings := SameGroup(units, correct.id, all);
      |siblings| < count - 1 ==> multiset(r) == multiset([correct] + Pool(siblings, correct, all, count - 1))
  {
    var siblings := SameGroup(units, correct.id, all);
    SameGroupSpec(units, correct.id, all);
    var need := count - 1;
    if |siblings| >= need {
      var picks := SliceTo(siblings, need);
      r := Shuffle([correct] + picks, draws);
      OptionsFromPicks(r, correct, picks, all, count);
    } else {
      var others := Filter(all, OtherId(correct.id));
      var picks := TopUpPicks(siblings, others, need);
      PoolMembers(units, correct, all, need);
      assert SliceTo(picks, need) == picks;
      r := Shuffle([correct] + picks, draws);
      OptionsFromPicks(r, correct, picks, all, count);
    }
  }
}
