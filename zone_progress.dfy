/**
 * Zone progress: the curriculum's zones with their prerequisite graph, the
 * completed zones kept under one localStorage key, and the unlock rules
 * for a zone and for its tutor. The phonetics tutor reads the lesson
 * progress store.
 */
module ZoneProgress {
  import opened Wrappers
  import opened Sorting
  import LessonProgress

  /** The keys of `ZONE_CONFIG`, in order. */
  datatype Zone =
    | Compression | Phonetics | Gradation | Sandhi | Roots | Words
    | Suffixes | Karakas | Verbs | Compounds | Reading | Philosophy

  datatype ZoneConfig = ZoneConfig(displayName: string, prerequisites: seq<Zone>, order: int, levelCount: Option<int>)

  /** `ZONE_CONFIG`. */
  function Config(z: Zone): ZoneConfig
  {
    match z
    case Compression => ZoneConfig("Pratyāhāras", [], 1, Some(5))
    case Phonetics => ZoneConfig("Phoneme Grid", [], 2, Some(5))
    case Gradation => ZoneConfig("Guṇa / Vṛddhi", [Phonetics], 3, Some(8))
    case Sandhi => ZoneConfig("Sandhi", [Phonetics, Gradation], 4, Some(15))
    case Roots => ZoneConfig("Dhātus", [Phonetics, Gradation], 5, Some(10))
    case Words => ZoneConfig("Words", [], 6, Some(8))
    case Suffixes => ZoneConfig("Suffixes", [Roots], 7, Some(10))
    case Karakas => ZoneConfig("Kārakas", [Words], 8, Some(10))
    case Verbs => ZoneConfig("Verbs", [Roots], 9, Some(12))
    case Compounds => ZoneConfig("Compounds", [Sandhi, Karakas], 10, Some(10))
    case Reading => ZoneConfig("Reading", [Sandhi, Verbs], 11, Some(10))
    case Philosophy => ZoneConfig("Darśana", [Compounds, Reading], 12, Some(8))
  }

  /** The zone's key. */
  function ZoneName(z: Zone): string
  {
    match z
    case Compression => "compression"
    case Phonetics => "phonetics"
    case Gradation => "gradation"
    case Sandhi => "sandhi"
    case Roots => "roots"
    case Words => "words"
    case Suffixes => "suffixes"
    case Karakas => "karakas"
    case Verbs => "verbs"
    case Compounds => "compounds"
    case Reading => "reading"
    case Philosophy => "philosophy"
  }

  /** `Object.keys(ZONE_CONFIG)`. */
  const ZoneOrder: seq<Zone> := [Compression, Phonetics, Gradation, Sandhi, Roots, Words, Suffixes, Karakas, Verbs, Compounds, Reading, Philosophy]

  /** `ZONE_CONFIG[zoneId]`: the zone with that key, if any. */
  function ZoneOf(zoneId: string): (r: Option<Zone>)
    ensures r.Some? ==> ZoneName(r.value) == zoneId
  {
    if zoneId == "compression" then Some(Compression)
    else if zoneId == "phonetics" then Some(Phonetics)
    else if zoneId == "gradation" then Some(Gradation)
    else if zoneId == "sandhi" then Some(Sandhi)
    else if zoneId == "roots" then Some(Roots)
    else if zoneId == "words" then Some(Words)
    else if zoneId == "suffixes" then Some(Suffixes)
    else if zoneId == "karakas" then Some(Karakas)
    else if zoneId == "verbs" then Some(Verbs)
    else if zoneId == "compounds" then Some(Compounds)
    else if zoneId == "reading" then Some(Reading)
    else if zoneId == "philosophy" then Some(Philosophy)
    else None
  }

  /** A key names exactly one zone, and every zone is listed once among the keys. */
  lemma ZoneNames(z: Zone, zoneId: string)
    ensures ZoneOf(ZoneName(z)) == Some(z)
    ensures ZoneOf(zoneId) == Some(z) ==> ZoneName(z) == zoneId
    ensures z in ZoneOrder
  {
    match z
    case Compression =>
    case Phonetics =>
    case Gradation =>
    case Sandhi =>
    case Roots =>
    case Words =>
    case Suffixes =>
    case Karakas =>
    case Verbs =>
    case Compounds =>
    case Reading =>
    case Philosophy =>
  }

  /** `DEFAULT_UNIT_COUNT`: the number of phoneme units. */
  const DefaultUnitCount: nat := 9

  /** Every prerequisite has a strictly smaller order than the zone that needs it. */
  lemma ZonesOrdered(z: Zone, p: Zone)
    requires p in Config(z).prerequisites
    ensures Config(p).order < Config(z).order
  {
  }

  /** A chain of zones, each a prerequisite of the one before. */
  predicate PrerequisiteChain(path: seq<Zone>)
  {
    forall i :: 0 < i < |path| ==> path[i] in Config(path[i - 1]).prerequisites
  }

  /** Along a chain the order strictly falls. */
  lemma {:induction false} ChainDescends(path: seq<Zone>)
    requires |path| >= 2 && PrerequisiteChain(path)
    ensures Config(path[|path| - 1]).order < Config(path[0]).order
  {
    ZonesOrdered(path[0], path[1]);
    if |path| > 2 {
      ChainDescends(path[1..]);
    }
  }

  /** The prerequisite graph is acyclic: no chain returns to the zone it starts from. */
  lemma NoCycle(path: seq<Zone>)
    requires |path| >= 2 && PrerequisiteChain(path)
    ensures path[0] != path[|path| - 1]
  {
    ChainDescends(path);
  }

  /** `isZoneUnlocked` for a list of completed zones: unknown zones are open, others need every prerequisite. */
  predicate Unlocked(completed: seq<string>, zoneId: string)
  {
    ZoneOf(zoneId).None? || forall p :: p in Config(ZoneOf(zoneId).value).prerequisites ==> ZoneName(p) in completed
  }

  /** The zones without prerequisites are always open. */
  lemma RootZonesOpen(completed: seq<string>)
    ensures Unlocked(completed, "compression") && Unlocked(completed, "phonetics") && Unlocked(completed, "words")
  {
  }

  /** Completing more zones never locks a zone. */
  lemma UnlockedMonotone(completed: seq<string>, more: seq<string>, zoneId: string)
    requires forall z :: z in completed ==> z in more
    requires Unlocked(completed, zoneId)
    ensures Unlocked(more, zoneId)
  {
  }

  /** A key's position among the keys of `ZONE_CONFIG`, counted from 1 (its `order`); 0 for a name that is not a key. */
  function KeyRank(zoneId: string): int
  {
    if ZoneOf(zoneId).Some? then Config(ZoneOf(zoneId).value).order else 0
  }

  /** The `i`-th key has rank `i + 1`: ranking by `KeyRank` is ranking by key order. */
  lemma KeyRanks()
    ensures forall i :: 0 <= i < |ZoneOrder| ==> KeyRank(ZoneName(ZoneOrder[i])) == i + 1
  {
    forall i | 0 <= i < |ZoneOrder| ensures KeyRank(ZoneName(ZoneOrder[i])) == i + 1 {
      ZoneNames(ZoneOrder[i], ZoneName(ZoneOrder[i]));
    }
  }

  /** The names of the zones the learner can open, in key order, each once. */
  function UnlockedZones(completed: seq<string>): (r: seq<string>)
    ensures forall z :: z in r <==> ZoneOf(z).Some? && Unlocked(completed, z)
    ensures forall i, j :: 0 <= i < j < |r| ==> KeyRank(r[i]) < KeyRank(r[j])
  {
    var keys := seq(|ZoneOrder|, i requires 0 <= i < |ZoneOrder| => ZoneName(ZoneOrder[i]));
    FilterMembers(keys, z => Unlocked(completed, z));
    KeyRanks();
    assert IncreasingBy(keys, KeyRank);
    FilterIncreasing(keys, z => Unlocked(completed, z), KeyRank);
    assert forall z :: z in keys <==> ZoneOf(z).Some? by {
      forall z ensures z in keys <==> ZoneOf(z).Some? {
        if ZoneOf(z).Some? {
          ZoneNames(ZoneOf(z).value, z);
          var i :| 0 <= i < |ZoneOrder| && ZoneOrder[i] == ZoneOf(z).value;
          assert keys[i] == z;
        }
        if z in keys {
          var i :| 0 <= i < |keys| && keys[i] == z;
          ZoneNames(ZoneOrder[i], z);
        }
      }
    }
    Filter(keys, z => Unlocked(completed, z))
  }

  /** `isZoneTutorUnlocked` on the completed zones and the completed phoneme units: phonetics counts units, any other zone needs its own completion. */
  predicate TutorUnlocked(completed: seq<string>, units: seq<string>, zoneId: string)
  {
    if zoneId == "phonetics" then |units| >= DefaultUnitCount else zoneId in completed
  }

  /** Outside phonetics a tutor opens exactly when its zone is completed, so marking the zone complete opens it and nothing closes it again. */
  lemma TutorFollowsCompletion(completed: seq<string>, more: seq<string>, units: seq<string>, zoneId: string)
    requires zoneId != "phonetics"
    requires forall z :: z in completed ==> z in more
    ensures TutorUnlocked(completed, units, zoneId) <==> zoneId in completed
    ensures TutorUnlocked(if zoneId in completed then completed else completed + [zoneId], units, zoneId)
    ensures TutorUnlocked(completed, units, zoneId) ==> TutorUnlocked(more, units, zoneId)
  {
  }

  /** A list without repetitions has as many distinct elements as entries. */
  lemma {:induction false} DistinctCount(xs: seq<string>)
    requires LessonProgress.NoDuplicates(xs)
    ensures |set x | x in xs| == |xs|
  {
    if xs != [] {
      var init := xs[..|xs| - 1];
      assert LessonProgress.NoDuplicates(init);
      DistinctCount(init);
      assert (set x | x in xs) == (set x | x in init) + {xs[|xs| - 1]};
      assert xs[|xs| - 1] !in (set x | x in init);
    }
  }

  /**
   * The phonetics tutor counts completed units, which is the same as every
   * unit being complete when the completed list repeats nothing and holds only
   * ids of the nine units.
   */
  lemma {:induction false} PhoneticsTutorNeedsAllUnits(completed: seq<string>, units: seq<string>, unitIds: seq<string>)
    requires |unitIds| == DefaultUnitCount && LessonProgress.NoDuplicates(unitIds)
    requires LessonProgress.NoDuplicates(units) && forall u :: u in units ==> u in unitIds
    ensures TutorUnlocked(completed, units, "phonetics") <==> forall u :: u in unitIds ==> u in units
  {
    var done, all := set x | x in units, set x | x in unitIds;
    DistinctCount(units);
    DistinctCount(unitIds);
    assert done <= all;
    assert |all - done| + |done| == |all| by {
      assert all == done + (all - done);
    }
    if forall u :: u in unitIds ==> u in units {
      assert all - done == {};
    } else {
      var u :| u in unitIds && u !in units;
      assert u in all - done;
    }
  }

  /** On the server both stores read as empty, so no tutor is open. */
  lemma ServerTutorsLocked(store: ZoneStore, lessons: LessonProgress.LessonStore, zoneId: string)
    requires !store.browser && !lessons.browser
    ensures !store.IsZoneTutorUnlocked(zoneId, lessons)
  {
  }

  class ZoneStore {
    /** `typeof window !== "undefined"`. */
    const browser: bool
    /** The stored `completedZones`. */
    var stored: Slot<seq<string>>

    constructor(inBrowser: bool)
      ensures browser == inBrowser && stored == Absent
    {
      browser := inBrowser;
      stored := Absent;
    }

    /** `load().completedZones`: empty on the server, without data or on a parse error. */
    function Completed(): (c: seq<string>)
      reads this
      ensures !browser ==> c == []
      ensures browser ==> c == stored.OrElse([])
    {
      if browser then stored.OrElse([]) else []
    }

    /** `isZoneUnlocked`. */
    predicate IsZoneUnlocked(zoneId: string)
      reads this
    {
      Unlocked(Completed(), zoneId)
    }

    /** `getUnlockedZones`. */
    function GetUnlockedZones(): (r: seq<string>)
      reads this
      ensures forall z :: z in r <==> ZoneOf(z).Some? && IsZoneUnlocked(z)
      ensures forall i, j :: 0 <= i < j < |r| ==> KeyRank(r[i]) < KeyRank(r[j])
    {
      UnlockedZones(Completed())
    }

    /** `isZoneTutorUnlocked`. */
    predicate IsZoneTutorUnlocked(zoneId: string, lessons: LessonProgress.LessonStore)
      reads this, lessons
    {
      TutorUnlocked(Completed(), lessons.Load().completedUnits, zoneId)
    }

    /** `markZoneComplete`: append when absent and save; saving is skipped on the server. */
    method MarkZoneComplete(zoneId: string)
      modifies this
      ensures browser && zoneId !in old(Completed()) ==> stored == Present(old(Completed()) + [zoneId])
      ensures !browser || zoneId in old(Completed()) ==> stored == old(stored)
      ensures browser ==> zoneId in Completed() && forall z :: z in Completed() <==> z in old(Completed()) || z == zoneId
    {
      var completed := Completed();
      if zoneId !in completed {
        completed := completed + [zoneId];
        if browser {
          stored := Present(completed);
        }
      }
    }
  }

  /** Completing a zone is idempotent and keeps every unlocked zone unlocked. */
  lemma MarkZoneLaws(completed: seq<string>, zoneId: string, z: string)
    ensures var once := if zoneId in completed then completed else completed + [zoneId];
      (if zoneId in once then once else once + [zoneId]) == once
      && (Unlocked(completed, z) ==> Unlocked(once, z))
  {
    var once := if zoneId in completed then completed else completed + [zoneId];
    if Unlocked(completed, z) {
      UnlockedMonotone(completed, once, z);
    }
  }
}
