/**
 * The tutor's per-learner state: the highest level passed in each zone, a
 * retry counter per (zone, level), the weekly plan and when it was made.
 * Levels only go up; a pass clears the retry counter of that level.
 */
module TutorProfiles {
  import opened Wrappers
  import opened Text

  /** `f"{zone}_{level}"`: the key of a retry counter. */
  function LevelKey(zone: string, level: int): (k: string)
    ensures |k| > |zone| && k[..|zone|] == zone && k[|zone|] == '_'
    ensures forall i :: |zone| < i < |k| ==> k[i] != '_'
  {
    IntToStringChars(level);
    zone + "_" + IntToString(level)
  }

  /** Different (zone, level) pairs never share a counter, whatever characters the zone name holds. */
  lemma LevelKeyInjective(z1: string, l1: int, z2: string, l2: int)
    requires LevelKey(z1, l1) == LevelKey(z2, l2)
    ensures z1 == z2 && l1 == l2
  {
    var k := LevelKey(z1, l1);
    assert |z1| == |z2|;
    assert z1 == k[..|z1|] == z2;
    assert IntToString(l1) == k[|z1| + 1..] == IntToString(l2);
    IntToStringInjective(l1, l2);
  }

  // ---------------------------------------------------------------------------
  // The weekly plan (built by the navigator, stored with the profile)

  datatype Goal = Goal(zone: string, fromLevel: int, toLevel: int, focus: string)

  /** One day of the plan; a maintenance day has no zone and no level. */
  datatype DaySlot = DaySlot(day: nat, sessionType: string, zone: Option<string>, level: Option<int>, drills: seq<string>)

  datatype Arc = Arc(goals: seq<Goal>, dailySlots: seq<DaySlot>, generatedAt: string)

  /** When the plan was made: a parsed instant (seconds), or text that still has to be parsed. */
  datatype Stamp = At(seconds: int) | Text(iso: string)

  // ---------------------------------------------------------------------------
  // Counter maps as values

  /** `d.get(k, 0)`. */
  function CountOr0(m: map<string, int>, k: string): (n: int)
    ensures k !in m ==> n == 0
    ensures k in m ==> n == m[k]
  {
    if k in m then m[k] else 0
  }

  /** The counters after `increment_retry`. */
  function Incremented(m: map<string, int>, k: string): (r: map<string, int>)
    ensures k in r && r[k] == CountOr0(m, k) + 1
    ensures forall other :: other != k ==> (other in r <==> other in m) && (other in m ==> r[other] == m[other])
  {
    m[k := CountOr0(m, k) + 1]
  }

  /** The zone levels after `pass_level`: raised to `level` when that is higher, otherwise untouched. */
  function Raised(levels: map<string, int>, zone: string, level: int): (r: map<string, int>)
    ensures CountOr0(r, zone) == if level > CountOr0(levels, zone) then level else CountOr0(levels, zone)
    ensures forall z :: z != zone ==> (z in r <==> z in levels) && (z in levels ==> r[z] == levels[z])
  {
    if level > CountOr0(levels, zone) then levels[zone := level] else levels
  }

  /** Passing never lowers a zone's level, in that zone or any other. */
  lemma RaisedMonotone(levels: map<string, int>, zone: string, level: int)
    ensures forall z :: CountOr0(levels, z) <= CountOr0(Raised(levels, zone, level), z)
  {
    forall z ensures CountOr0(levels, z) <= CountOr0(Raised(levels, zone, level), z) {
      if z != zone {
        assert z in levels <==> z in Raised(levels, zone, level);
      }
    }
  }

  /** Removing a counter twice is removing it once. */
  lemma ClearIdempotent(m: map<string, int>, k: string)
    ensures (m - {k}) - {k} == m - {k}
    ensures k !in m - {k}
  {
  }

  /** A retry at one (zone, level) leaves the counter of every other (zone, level) as it was. */
  lemma IncrementOtherLevel(m: map<string, int>, zone: string, level: int, zone2: string, level2: int)
    requires zone != zone2 || level != level2
    ensures CountOr0(Incremented(m, LevelKey(zone, level)), LevelKey(zone2, level2)) == CountOr0(m, LevelKey(zone2, level2))
  {
    if LevelKey(zone, level) == LevelKey(zone2, level2) {
      LevelKeyInjective(zone, level, zone2, level2);
    }
  }

  /** Clearing one (zone, level) leaves the counter of every other (zone, level) as it was. */
  lemma ClearOtherLevel(m: map<string, int>, zone: string, level: int, zone2: string, level2: int)
    requires zone != zone2 || level != level2
    ensures CountOr0(m - {LevelKey(zone, level)}, LevelKey(zone2, level2)) == CountOr0(m, LevelKey(zone2, level2))
  {
    if LevelKey(zone, level) == LevelKey(zone2, level2) {
      LevelKeyInjective(zone, level, zone2, level2);
    }
  }

  // ---------------------------------------------------------------------------
  // The profile

  datatype TutorData = TutorData(
    userId: string, zoneLevels: map<string, int>, levelRetryCounts: map<string, int>,
    weeklyArc: Option<Arc>, lastArcGenerated: Option<Stamp>, unverifiedPronunciation: set<string>)

  /** The profile of a learner with no stored row. */
  function NewTutorData(userId: string): (d: TutorData)
    ensures d.userId == userId && d.zoneLevels == map[] && d.levelRetryCounts == map[]
    ensures d.weeklyArc.None? && d.lastArcGenerated.None? && d.unverifiedPronunciation == {}
  {
    TutorData(userId, map[], map[], None, None, {})
  }

  class TutorProfile {
    var userId: string
    var zoneLevels: map<string, int>
    var levelRetryCounts: map<string, int>
    var weeklyArc: Option<Arc>
    var lastArcGenerated: Option<Stamp>
    var unverifiedPronunciation: set<string>

    constructor (d: TutorData)
      ensures Data() == d
    {
      userId := d.userId;
      zoneLevels := d.zoneLevels;
      levelRetryCounts := d.levelRetryCounts;
      weeklyArc := d.weeklyArc;
      lastArcGenerated := d.lastArcGenerated;
      unverifiedPronunciation := d.unverifiedPronunciation;
    }

    function Data(): TutorData
      reads this
    {
      TutorData(userId, zoneLevels, levelRetryCounts, weeklyArc, lastArcGenerated, unverifiedPronunciation)
    }

    /** `zone_levels.get(zone, 0)`. */
    function ZoneLevel(zone: string): int
      reads this
    {
      CountOr0(zoneLevels, zone)
    }

    /** `retries_for`: 0 for a level never failed. */
    function RetriesFor(zone: string, level: int): (n: int)
      reads this
      ensures LevelKey(zone, level) !in levelRetryCounts ==> n == 0
    {
      CountOr0(levelRetryCounts, LevelKey(zone, level))
    }

    /** `increment_retry`: one more retry at this level, and the new count. */
    method IncrementRetry(zone: string, level: int) returns (n: int)
      modifies this
      ensures n == old(RetriesFor(zone, level)) + 1 && RetriesFor(zone, level) == n
      ensures Data() == old(Data()).(levelRetryCounts := Incremented(old(levelRetryCounts), LevelKey(zone, level)))
    {
      var key := LevelKey(zone, level);
      n := CountOr0(levelRetryCounts, key) + 1;
      levelRetryCounts := levelRetryCounts[key := n];
    }

    /** `clear_retry`: forget the counter of this level, if any. */
    method ClearRetry(zone: string, level: int)
      modifies this
      ensures RetriesFor(zone, level) == 0
      ensures Data() == old(Data()).(levelRetryCounts := old(levelRetryCounts) - {LevelKey(zone, level)})
    {
      levelRetryCounts := levelRetryCounts - {LevelKey(zone, level)};
    }

    /** `pass_level`: raise the zone to `level` if that is higher, and clear this level's counter. */
    method PassLevel(zone: string, level: int)
      modifies this
      ensures ZoneLevel(zone) == if level > old(ZoneLevel(zone)) then level else old(ZoneLevel(zone))
      ensures RetriesFor(zone, level) == 0
      ensures Data() == old(Data()).(zoneLevels := Raised(old(zoneLevels), zone, level),
                                     levelRetryCounts := old(levelRetryCounts) - {LevelKey(zone, level)})
    {
      var current := CountOr0(zoneLevels, zone);
      if level > current {
        zoneLevels := zoneLevels[zone := level];
      }
      ClearRetry(zone, level);
    }
  }

  /** The stored profiles, one row per learner. */
  class TutorStore {
    var rows: map<string, TutorData>

    /** Each row is stored under its own learner's id. */
    ghost predicate Valid()
      reads this
    {
      forall k :: k in rows ==> rows[k].userId == k
    }

    constructor ()
      ensures rows == map[] && Valid()
    {
      rows := map[];
    }

    /** The learner's stored row, or a fresh profile for a learner with none. */
    function Stored(userId: string): (d: TutorData)
      reads this
      ensures userId !in rows ==> d == NewTutorData(userId)
      ensures Valid() ==> d.userId == userId
    {
      if userId in rows then rows[userId] else NewTutorData(userId)
    }

    /** `load_tutor_profile`. */
    method Load(userId: string) returns (p: TutorProfile)
      ensures fresh(p)
      ensures p.Data() == Stored(userId)
    {
      p := new TutorProfile(Stored(userId));
    }

    /** `save_tutor_profile`: insert or replace the learner's row. */
    method Save(p: TutorProfile)
      modifies this
      ensures rows == old(rows)[p.userId := p.Data()]
      ensures old(Valid()) ==> Valid()
    {
      rows := rows[p.userId := p.Data()];
    }
  }
}
