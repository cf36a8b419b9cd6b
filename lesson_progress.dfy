/**
 * Lesson progress: the phonemes passed in each unit and the completed
 * units, kept as one JSON object under one localStorage key. The key is a
 * `Slot` of a `LessonStore`; the stored object may set either field, and
 * the missing ones come from the empty default.
 */
module LessonProgress {
  import opened Wrappers
  import opened Tables

  /** `LessonProgress`: unit id to passed phoneme ids, and the completed unit ids. */
  datatype Progress = Progress(completedPhonemes: Table<seq<string>>, completedUnits: seq<string>)

  /** A parsed object: the fields it sets. */
  datatype ProgressPatch = ProgressPatch(completedPhonemes: Option<Table<seq<string>>>, completedUnits: Option<seq<string>>)

  /** `defaultProgress()`. */
  const Empty: Progress := Progress([], [])

  /** `{ ...defaultProgress(), ...parsed }`. */
  function WithDefaults(patch: ProgressPatch): (p: Progress)
    ensures patch.completedPhonemes.None? ==> p.completedPhonemes == []
    ensures patch.completedUnits.None? ==> p.completedUnits == []
    ensures patch.completedPhonemes.Some? ==> p.completedPhonemes == patch.completedPhonemes.value
    ensures patch.completedUnits.Some? ==> p.completedUnits == patch.completedUnits.value
  {
    Progress(patch.completedPhonemes.GetOr([]), patch.completedUnits.GetOr([]))
  }

  /** The object `JSON.stringify` writes: both fields set. */
  function AsPatch(p: Progress): (patch: ProgressPatch)
    ensures patch.completedPhonemes.Some? && patch.completedUnits.Some?
  {
    ProgressPatch(Some(p.completedPhonemes), Some(p.completedUnits))
  }

  /** A written object reads back as itself. */
  lemma AsPatchReadsBack(p: Progress)
    ensures WithDefaults(AsPatch(p)) == p
  {
  }

  /** `xs.includes(x) ? xs : [...xs, x]`. */
  function AddOnce(xs: seq<string>, x: string): (r: seq<string>)
    ensures x in r && forall y :: y in r <==> y in xs || y == x
    ensures x in xs ==> r == xs
    ensures x !in xs ==> r == xs + [x]
  {
    if x in xs then xs else xs + [x]
  }

  predicate NoDuplicates(xs: seq<string>)
  {
    forall i, j :: 0 <= i < j < |xs| ==> xs[i] != xs[j]
  }

  /** Adding is idempotent and keeps a list free of duplicates. */
  lemma AddOnceLaws(xs: seq<string>, x: string)
    ensures AddOnce(AddOnce(xs, x), x) == AddOnce(xs, x)
    ensures NoDuplicates(xs) ==> NoDuplicates(AddOnce(xs, x))
  {
  }

  /**
   * `markPhonemePassed` on loaded progress: the phoneme is added to its
   * unit's list once, and the unit is added once to the completed units
   * when a total is given and the unit's list has reached it.
   */
  function PassPhoneme(p: Progress, unitId: string, phonemeId: string, totalInUnit: Option<int>): (r: Progress)
  {
    var arr := AddOnce(GetOr(p.completedPhonemes, unitId, []), phonemeId);
    var units := if totalInUnit.Some? && |arr| >= totalInUnit.value then AddOnce(p.completedUnits, unitId) else p.completedUnits;
    Progress(Put(p.completedPhonemes, unitId, arr), units)
  }

  /**
   * The unit's list gains the phoneme and nothing else, other units keep
   * their lists, duplicates never arise, and the unit becomes complete
   * exactly when it was complete or a total is given and reached.
   */
  lemma PassPhonemeSpec(p: Progress, unitId: string, phonemeId: string, totalInUnit: Option<int>, other: string)
    requires DistinctKeys(p.completedPhonemes)
    ensures var r := PassPhoneme(p, unitId, phonemeId, totalInUnit);
      var before := GetOr(p.completedPhonemes, unitId, []);
      && DistinctKeys(r.completedPhonemes)
      && Get(r.completedPhonemes, unitId) == Some(AddOnce(before, phonemeId))
      && (other != unitId ==> Get(r.completedPhonemes, other) == Get(p.completedPhonemes, other))
      && (NoDuplicates(before) ==> NoDuplicates(AddOnce(before, phonemeId)))
      && (NoDuplicates(p.completedUnits) ==> NoDuplicates(r.completedUnits))
      && (unitId in r.completedUnits <==>
            unitId in p.completedUnits || (totalInUnit.Some? && |AddOnce(before, phonemeId)| >= totalInUnit.value))
      && (forall u :: u != unitId ==> (u in r.completedUnits <==> u in p.completedUnits))
  {
    var before := GetOr(p.completedPhonemes, unitId, []);
    PutGet(p.completedPhonemes, unitId, AddOnce(before, phonemeId), other);
    AddOnceLaws(before, phonemeId);
    AddOnceLaws(p.completedUnits, unitId);
  }

  /** Passing the same phoneme twice is passing it once. */
  lemma PassPhonemeIdempotent(p: Progress, unitId: string, phonemeId: string, totalInUnit: Option<int>)
    requires DistinctKeys(p.completedPhonemes)
    ensures PassPhoneme(PassPhoneme(p, unitId, phonemeId, totalInUnit), unitId, phonemeId, totalInUnit)
         == PassPhoneme(p, unitId, phonemeId, totalInUnit)
  {
    var before := GetOr(p.completedPhonemes, unitId, []);
    var arr := AddOnce(before, phonemeId);
    var q := PassPhoneme(p, unitId, phonemeId, totalInUnit);
    PutGet(p.completedPhonemes, unitId, arr, unitId);
    assert GetOr(q.completedPhonemes, unitId, []) == arr;
    AddOnceLaws(before, phonemeId);
    PutTwice(p.completedPhonemes, unitId, arr);
  }

  /** Writing the same value twice under one key is writing it once. */
  lemma PutTwice<V>(t: Table<V>, k: string, v: V)
    ensures Put(Put(t, k, v), k, v) == Put(t, k, v)
  {
    var r := Put(t, k, v);
    if HasKey(t, k) {
      var i :| 0 <= i < |t| && t[i].0 == k;
      assert r[i].0 == k;
      assert SetValue(r, k, v) == r;
    } else {
      assert r[|t|].0 == k;
      assert SetValue(r, k, v) == r;
    }
  }

  /** The position of the first occurrence, or -1 (`indexOf`). */
  function IndexOf(xs: seq<string>, x: string): (i: int)
    ensures -1 <= i < |xs|
    ensures i == -1 <==> x !in xs
    ensures 0 <= i ==> xs[i] == x && x !in xs[..i]
  {
    if |xs| == 0 then -1
    else if xs[0] == x then 0
    else
      var j := IndexOf(xs[1..], x);
      if j == -1 then -1
      else
        assert xs[..j + 1] == [xs[0]] + xs[1..][..j];
        j + 1
  }

  /** `isUnitUnlocked` on loaded progress. */
  predicate UnitUnlocked(p: Progress, unitId: string, allUnitIds: seq<string>)
  {
    var idx := IndexOf(allUnitIds, unitId);
    idx <= 0 || allUnitIds[idx - 1] in p.completedUnits
  }

  /**
   * The first unit and units not in the list are always open; any other
   * unit is open exactly when the unit before its first occurrence is
   * complete.
   */
  lemma UnitUnlockedSpec(p: Progress, unitId: string, allUnitIds: seq<string>)
    ensures unitId !in allUnitIds ==> UnitUnlocked(p, unitId, allUnitIds)
    ensures |allUnitIds| > 0 && allUnitIds[0] == unitId ==> UnitUnlocked(p, unitId, allUnitIds)
    ensures forall i :: 0 < i < |allUnitIds| && allUnitIds[i] == unitId && unitId !in allUnitIds[..i] ==>
      (UnitUnlocked(p, unitId, allUnitIds) <==> allUnitIds[i - 1] in p.completedUnits)
  {
    forall i | 0 < i < |allUnitIds| && allUnitIds[i] == unitId && unitId !in allUnitIds[..i]
      ensures UnitUnlocked(p, unitId, allUnitIds) <==> allUnitIds[i - 1] in p.completedUnits
    {
      assert IndexOf(allUnitIds, unitId) == i;
    }
  }

  class LessonStore {
    /** `typeof window !== "undefined"`. */
    const browser: bool
    var stored: Slot<ProgressPatch>

    /** A parsed object has distinct keys. */
    ghost predicate Valid()
      reads this
    {
      stored.Present? && stored.value.completedPhonemes.Some? ==> DistinctKeys(stored.value.completedPhonemes.value)
    }

    constructor(inBrowser: bool)
      ensures browser == inBrowser && stored == Absent && Valid()
    {
      browser := inBrowser;
      stored := Absent;
    }

    /** `load()`: the stored fields over the defaults; the default on the server, without data or on a parse error. */
    function Load(): (p: Progress)
      reads this
      ensures !browser || !stored.Present? ==> p == Empty
      ensures browser && stored.Present? ==> p == WithDefaults(stored.value)
      ensures Valid() ==> DistinctKeys(p.completedPhonemes)
    {
      if browser && stored.Present? then WithDefaults(stored.value) else Empty
    }

    /** `markPhonemePassed`; the write is not guarded, so on the server it raises. */
    method MarkPhonemePassed(unitId: string, phonemeId: string, totalInUnit: Option<int>) returns (raised: bool)
      requires Valid()
      modifies this
      ensures raised <==> !browser
      ensures browser ==> stored == Present(AsPatch(PassPhoneme(old(Load()), unitId, phonemeId, totalInUnit)))
      ensures browser ==> Load() == PassPhoneme(old(Load()), unitId, phonemeId, totalInUnit)
      ensures !browser ==> stored == old(stored)
      ensures Valid()
    {
      var p := Load();
      PassPhonemeSpec(p, unitId, phonemeId, totalInUnit, unitId);
      var q := PassPhoneme(p, unitId, phonemeId, totalInUnit);
      if !browser {
        return true;
      }
      stored := Present(AsPatch(q));
      AsPatchReadsBack(q);
      return false;
    }

    /** `markUnitComplete`; the write is not guarded, so on the server it raises. */
    method MarkUnitComplete(unitId: string) returns (raised: bool)
      requires Valid()
      modifies this
      ensures raised <==> !browser
      ensures browser ==> Load() == Progress(old(Load()).completedPhonemes, AddOnce(old(Load()).completedUnits, unitId))
      ensures !browser ==> stored == old(stored)
      ensures Valid()
    {
      var p := Load();
      var q := Progress(p.completedPhonemes, AddOnce(p.completedUnits, unitId));
      if !browser {
        return true;
      }
      stored := Present(AsPatch(q));
      AsPatchReadsBack(q);
      return false;
    }

    /** `getCompletedPhonemesForUnit`. */
    function CompletedPhonemesForUnit(unitId: string): (s: set<string>)
      reads this
      ensures forall x :: x in s <==> x in GetOr(Load().completedPhonemes, unitId, [])
    {
      set x | x in GetOr(Load().completedPhonemes, unitId, [])
    }

    /** `isUnitComplete`. */
    predicate IsUnitComplete(unitId: string)
      reads this
    {
      unitId in Load().completedUnits
    }

    /** `isUnitUnlocked`. */
    predicate IsUnitUnlocked(unitId: string, allUnitIds: seq<string>)
      reads this
    {
      UnitUnlocked(Load(), unitId, allUnitIds)
    }
  }

  /** Completing a unit twice is completing it once, and it is complete afterwards. */
  lemma MarkUnitIdempotent(p: Progress, unitId: string)
    ensures var q := Progress(p.completedPhonemes, AddOnce(p.completedUnits, unitId));
      unitId in q.completedUnits && Progress(q.completedPhonemes, AddOnce(q.completedUnits, unitId)) == q
  {
    AddOnceLaws(p.completedUnits, unitId);
  }
}
