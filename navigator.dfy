/**
 * The navigator of the tutor: the weekly plan (goals per zone and seven
 * daily slots) built from the learner's zone levels and the zone catalogue,
 * and the daily brief, which rebuilds a missing or week-old plan and picks
 * today's slot.
 *
 * The zone catalogue file, the clock and the parsing of stored timestamps
 * are outside the model: the catalogue is a parameter, the clock gives
 * seconds, an ISO text and a weekday, and parsing is a function parameter.
 */
module TutorNavigator {
  import opened Wrappers
  import opened Text
  import opened Tables
  import opened Sorting
  import opened TutorProfiles

  /** One zone of the catalogue; every field may be missing. */
  datatype ZoneMeta = ZoneMeta(
    prerequisites: seq<string>, order: Option<int>, levelCount: Option<int>,
    displayLabel: Option<string>, zone11Threshold: Option<real>)

  /** The catalogue, in the file's order. */
  type Zones = Table<ZoneMeta>

  /** `{}`: the entry of a zone the catalogue does not list. */
  const NoMeta: ZoneMeta := ZoneMeta([], None, None, None, None)

  // ---------------------------------------------------------------------------
  // Prerequisites

  /** Python's `int()` of a float: truncation toward zero. */
  function Trunc(x: real): (n: int)
    ensures x >= 0.0 ==> n == x.Floor
    ensures x < 0.0 ==> n == -((-x).Floor)
  {
    if x >= 0.0 then x.Floor else -((-x).Floor)
  }

  /** The level a prerequisite must have reached: 1, except zone_11 for philosophy, whose bar is ten times its threshold. */
  function RequiredLevel(zones: Zones, zone: string, p: string): int
  {
    if p == "zone_11" && zone == "philosophy" then
      var t := GetOr(zones, "philosophy", NoMeta).zone11Threshold.GetOr(0.7);
      if t != 0.0 then Trunc(t * 10.0) else 1
    else 1
  }

  /** `_prerequisites_met`: every prerequisite zone has reached its required level. */
  predicate PrereqsMet(levels: map<string, int>, zone: string, zones: Zones)
  {
    var ps := GetOr(zones, zone, NoMeta).prerequisites;
    forall i :: 0 <= i < |ps| ==> CountOr0(levels, ps[i]) >= RequiredLevel(zones, zone, ps[i])
  }

  /** The loop of `_prerequisites_met`, which stops at the first unmet prerequisite. */
  method PrerequisitesMet(profile: TutorProfile, zone: string, zones: Zones) returns (ok: bool)
    ensures ok == PrereqsMet(profile.zoneLevels, zone, zones)
  {
    var prereqs := GetOr(zones, zone, NoMeta).prerequisites;
    for i := 0 to |prereqs|
      invariant forall j :: 0 <= j < i ==> CountOr0(profile.zoneLevels, prereqs[j]) >= RequiredLevel(zones, zone, prereqs[j])
    {
      var required := 1;
      if prereqs[i] == "zone_11" && zone == "philosophy" {
        var threshold := GetOr(zones, "philosophy", NoMeta).zone11Threshold.GetOr(0.7);
        required := if threshold != 0.0 then Trunc(threshold * 10.0) else 1;
      }
      if CountOr0(profile.zoneLevels, prereqs[i]) < required {
        return false;
      }
    }
    return true;
  }

  /** A zone with no prerequisites (or not in the catalogue) is always open. */
  lemma NoPrereqsAlwaysMet(levels: map<string, int>, zone: string, zones: Zones)
    requires GetOr(zones, zone, NoMeta).prerequisites == []
    ensures PrereqsMet(levels, zone, zones)
  {
  }

  /** Without a configured threshold, philosophy needs zone_11 at level 7. */
  lemma PhilosophyDefaultBar(zones: Zones)
    requires GetOr(zones, "philosophy", NoMeta).zone11Threshold.None?
    ensures RequiredLevel(zones, "philosophy", "zone_11") == 7
  {
  }

  /** Higher levels everywhere keep every met zone met. */
  lemma PrereqsMonotone(levels: map<string, int>, higher: map<string, int>, zone: string, zones: Zones)
    requires forall z :: CountOr0(levels, z) <= CountOr0(higher, z)
    requires PrereqsMet(levels, zone, zones)
    ensures PrereqsMet(higher, zone, zones)
  {
    var ps := GetOr(zones, zone, NoMeta).prerequisites;
    forall i | 0 <= i < |ps|
      ensures CountOr0(higher, ps[i]) >= RequiredLevel(zones, zone, ps[i])
    {
      assert CountOr0(levels, ps[i]) <= CountOr0(higher, ps[i]);
    }
  }

  /** Passing a level never closes a zone that was open. */
  lemma PassKeepsZonesOpen(levels: map<string, int>, passedZone: string, level: int, zone: string, zones: Zones)
    requires PrereqsMet(levels, zone, zones)
    ensures PrereqsMet(Raised(levels, passedZone, level), zone, zones)
  {
    RaisedMonotone(levels, passedZone, level);
    PrereqsMonotone(levels, Raised(levels, passedZone, level), zone, zones);
  }

  // ---------------------------------------------------------------------------
  // The weekly plan

  /** The sort key `x[1].get("order", 99)`. */
  function OrderKey(entry: (string, ZoneMeta)): real
  {
    entry.1.order.GetOr(99) as real
  }

  /** `_drills_for_zone`: the zone's game, if it has one, then pronunciation. */
  function DrillsFor(zone: string): (r: seq<string>)
    ensures |r| >= 1 && r[|r| - 1] == "pronunciation"
    ensures |r| == 2 <==> zone in {"roots", "phonetics", "sandhi", "karakas", "compounds"}
  {
    var base :=
      if zone == "roots" then ["dhatu_dash"]
      else if zone == "phonetics" then ["pronunciation"]
      else if zone == "sandhi" then ["sandhi_forge"]
      else if zone == "karakas" then ["karaka_web"]
      else if zone == "compounds" then ["pratyaya_reactor"]
      else [];
    base + ["pronunciation"]
  }

  /** A zone becomes a goal when it is open and not yet at its last level. */
  predicate Eligible(entry: (string, ZoneMeta), levels: map<string, int>, zones: Zones)
  {
    PrereqsMet(levels, entry.0, zones) && CountOr0(levels, entry.0) < entry.1.levelCount.GetOr(10)
  }

  /** The goal of an eligible zone: from its level, two levels on but not past the last. */
  function GoalOf(entry: (string, ZoneMeta), levels: map<string, int>): Goal
  {
    var current := CountOr0(levels, entry.0);
    var maxLevel := entry.1.levelCount.GetOr(10);
    Goal(entry.0, current, if current + 2 < maxLevel then current + 2 else maxLevel, entry.1.displayLabel.GetOr(entry.0))
  }

  /** The goals of the zone loop over `entries`, in order. */
  function GoalsFrom(entries: seq<(string, ZoneMeta)>, levels: map<string, int>, zones: Zones): seq<Goal>
  {
    if entries == [] then []
    else
      var last := entries[|entries| - 1];
      GoalsFrom(entries[..|entries| - 1], levels, zones) + (if Eligible(last, levels, zones) then [GoalOf(last, levels)] else [])
  }

  /** One more entry adds its goal exactly when it is eligible. */
  lemma GoalsFromSnoc(entries: seq<(string, ZoneMeta)>, e: (string, ZoneMeta), levels: map<string, int>, zones: Zones)
    ensures GoalsFrom(entries + [e], levels, zones)
      == GoalsFrom(entries, levels, zones) + (if Eligible(e, levels, zones) then [GoalOf(e, levels)] else [])
  {
    assert (entries + [e])[..|entries|] == entries;
  }

  /** The eligible entries among `entries`, in order. */
  function EligibleOf(entries: seq<(string, ZoneMeta)>, levels: map<string, int>, zones: Zones): seq<(string, ZoneMeta)>
  {
    Filter(entries, EligibleTest(levels, zones))
  }

  lemma EligibleTestIs(levels: map<string, int>, zones: Zones, x: (string, ZoneMeta))
    ensures EligibleTest(levels, zones)(x) == Eligible(x, levels, zones)
  {
  }

  /** `Eligible` as the test `Filter` applies. */
  function EligibleTest(levels: map<string, int>, zones: Zones): ((string, ZoneMeta)) -> bool
  {
    e => Eligible(e, levels, zones)
  }

  /** The goals are the eligible zones, one goal each, in the same order. */
  lemma {:induction false} GoalsAreEligible(entries: seq<(string, ZoneMeta)>, levels: map<string, int>, zones: Zones)
    ensures var g := GoalsFrom(entries, levels, zones);
      var e := EligibleOf(entries, levels, zones);
      |g| == |e| && forall i :: 0 <= i < |g| ==> g[i] == GoalOf(e[i], levels)
  {
    if entries != [] {
      GoalsAreEligible(entries[..|entries| - 1], levels, zones);
    }
  }

  /** The goals of the plan: the catalogue sorted by `order` (stably), then the eligible zones. */
  function GoalsOf(levels: map<string, int>, zones: Zones): seq<Goal>
  {
    GoalsFrom(SortBy(zones, OrderKey), levels, zones)
  }

  /** Slot `day` of the plan: the goals in rotation, or a maintenance day when there are none. */
  function SlotFor(goals: seq<Goal>, day: nat): DaySlot
  {
    if goals != [] then
      var g := goals[day % |goals|];
      DaySlot(day, "level", Some(g.zone), Some(g.fromLevel + 1), DrillsFor(g.zone))
    else DaySlot(day, "maintenance", None, None, ["dhatu_dash", "pronunciation"])
  }

  function SlotsOf(goals: seq<Goal>): (r: seq<DaySlot>)
    ensures |r| == 7
  {
    seq(7, d requires 0 <= d < 7 => SlotFor(goals, d))
  }

  /** The plan `generate_weekly_arc` builds, stamped `generatedAt`. */
  function ArcOf(levels: map<string, int>, zones: Zones, generatedAt: string): Arc
  {
    var goals := GoalsOf(levels, zones);
    Arc(goals, SlotsOf(goals), generatedAt)
  }

  /** The goal of an eligible zone starts at its level and moves up by one or two levels, never past its last. */
  lemma GoalOfSpec(entry: (string, ZoneMeta), levels: map<string, int>, zones: Zones)
    requires Eligible(entry, levels, zones)
    ensures var g := GoalOf(entry, levels);
      g.zone == entry.0 && g.fromLevel == CountOr0(levels, entry.0)
      && g.fromLevel < g.toLevel <= entry.1.levelCount.GetOr(10) && g.toLevel <= g.fromLevel + 2
      && g.toLevel == (if g.fromLevel + 2 < entry.1.levelCount.GetOr(10) then g.fromLevel + 2 else entry.1.levelCount.GetOr(10))
      && g.focus == entry.1.displayLabel.GetOr(entry.0)
  {
  }

  /**
   * The zones the plan takes up are exactly the eligible zones of the
   * catalogue, in ascending `order`.
   */
  lemma EligibleOfSpec(levels: map<string, int>, zones: Zones)
    ensures var e := EligibleOf(SortBy(zones, OrderKey), levels, zones);
      SortedBy(e, OrderKey) && forall x :: x in e <==> x in zones && Eligible(x, levels, zones)
  {
    FilterOfSorted(zones, EligibleTest(levels, zones), OrderKey);
    var e := EligibleOf(SortBy(zones, OrderKey), levels, zones);
    forall x ensures x in e <==> x in zones && Eligible(x, levels, zones) {
      EligibleTestIs(levels, zones, x);
    }
  }

  /**
   * The plan's goals: one per zone `EligibleOf` takes up, in the same order,
   * each aiming from the zone's level up to two levels on, never past its last.
   */
  lemma GoalsSpec(levels: map<string, int>, zones: Zones)
    ensures var e := EligibleOf(SortBy(zones, OrderKey), levels, zones);
      var g := GoalsOf(levels, zones);
      |g| == |e|
      && (forall i :: 0 <= i < |g| ==>
            g[i].zone == e[i].0 && g[i].fromLevel == CountOr0(levels, e[i].0)
            && g[i].fromLevel < g[i].toLevel <= e[i].1.levelCount.GetOr(10) && g[i].toLevel <= g[i].fromLevel + 2
            && g[i].toLevel == (if g[i].fromLevel + 2 < e[i].1.levelCount.GetOr(10) then g[i].fromLevel + 2 else e[i].1.levelCount.GetOr(10))
            && g[i].focus == e[i].1.displayLabel.GetOr(e[i].0))
  {
    var sorted := SortBy(zones, OrderKey);
    var e := EligibleOf(sorted, levels, zones);
    GoalsAreEligible(sorted, levels, zones);
    FilterMembers(sorted, EligibleTest(levels, zones));
    forall i | 0 <= i < |e| ensures Eligible(e[i], levels, zones) {
      assert e[i] in e;
      EligibleTestIs(levels, zones, e[i]);
    }
    forall i | 0 <= i < |e| {
      GoalOfSpec(e[i], levels, zones);
    }
  }

  /**
   * The plan always has seven days, numbered 0 to 6; with goals, day d works
   * on goal d mod |goals| at the level after its current one, and without
   * goals every day is maintenance with the Dhātu Dash and pronunciation drills.
   */
  lemma SlotsSpec(goals: seq<Goal>)
    ensures var s := SlotsOf(goals);
      |s| == 7 && (forall d :: 0 <= d < 7 ==> s[d].day == d)
      && (goals != [] ==> forall d :: 0 <= d < 7 ==>
            s[d].sessionType == "level" && s[d].zone == Some(goals[d % |goals|].zone)
            && s[d].level == Some(goals[d % |goals|].fromLevel + 1) && s[d].drills == DrillsFor(goals[d % |goals|].zone))
      && (goals == [] ==> forall d :: 0 <= d < 7 ==>
            s[d].sessionType == "maintenance" && s[d].zone.None? && s[d].level.None? && s[d].drills == ["dhatu_dash", "pronunciation"])
  {
  }

  /** The zone loop of `generate_weekly_arc`. */
  method CollectGoals(profile: TutorProfile, zones: Zones) returns (goals: seq<Goal>)
    ensures goals == GoalsOf(profile.zoneLevels, zones)
  {
    var levels := profile.zoneLevels;
    var ordered := SortBy(zones, OrderKey);
    goals := [];
    for i := 0 to |ordered|
      invariant goals == GoalsFrom(ordered[..i], levels, zones)
    {
      var entry := ordered[i];
      assert ordered[..i + 1] == ordered[..i] + [entry];
      GoalsFromSnoc(ordered[..i], entry, levels, zones);
      var ok := PrerequisitesMet(profile, entry.0, zones);
      var current := CountOr0(levels, entry.0);
      var maxLevel := entry.1.levelCount.GetOr(10);
      if ok && current < maxLevel {
        goals := goals + [GoalOf(entry, levels)];
      }
    }
    assert ordered[..|ordered|] == ordered;
  }

  /** The day loop of `generate_weekly_arc`. */
  method BuildSlots(goals: seq<Goal>) returns (slots: seq<DaySlot>)
    ensures slots == SlotsOf(goals)
  {
    slots := [];
    for day := 0 to 7
      invariant |slots| == day && forall d :: 0 <= d < day ==> slots[d] == SlotFor(goals, d)
    {
      if goals != [] {
        var g := goals[day % |goals|];
        slots := slots + [DaySlot(day, "level", Some(g.zone), Some(g.fromLevel + 1), DrillsFor(g.zone))];
      } else {
        slots := slots + [DaySlot(day, "maintenance", None, None, ["dhatu_dash", "pronunciation"])];
      }
    }
  }

  /** `generate_weekly_arc`: build the plan, store it and its time in the profile, and save the profile. */
  method GenerateWeeklyArc(store: TutorStore, profile: TutorProfile, zones: Zones, generatedAt: string, now: int)
    returns (arc: Arc)
    requires store.Valid()
    modifies profile, store
    ensures arc == ArcOf(old(profile.zoneLevels), zones, generatedAt)
    ensures profile.Data() == old(profile.Data()).(weeklyArc := Some(arc), lastArcGenerated := Some(At(now)))
    ensures store.rows == old(store.rows)[profile.userId := profile.Data()]
    ensures store.Valid()
  {
    var goals := CollectGoals(profile, zones);
    var slots := BuildSlots(goals);
    arc := Arc(goals, slots, generatedAt);
    profile.weeklyArc := Some(arc);
    profile.lastArcGenerated := Some(At(now));
    store.Save(profile);
  }

  // ---------------------------------------------------------------------------
  // The daily brief

  const SecondsPerDay: int := 86400

  /** When the plan was made, in seconds; a text that does not parse counts as eight days ago. */
  function MadeAt(stamp: Stamp, now: int, parse: string -> Option<int>): int
  {
    match stamp
    case At(s) => s
    case Text(iso) => match parse(iso) case Some(s) => s case None => now - 8 * SecondsPerDay
  }

  /** `(now - last).days`: whole days, rounded down. */
  function DaysOld(stamp: Stamp, now: int, parse: string -> Option<int>): int
  {
    (now - MadeAt(stamp, now, parse)) / SecondsPerDay
  }

  /** The plan is rebuilt when there is none, or when its time is known and it is a week old or more. */
  predicate NeedsNewArc(d: TutorData, now: int, parse: string -> Option<int>)
  {
    d.weeklyArc.None? || (d.lastArcGenerated.Some? && DaysOld(d.lastArcGenerated.value, now, parse) >= 7)
  }

  /** A week old means at least 604800 seconds old. */
  lemma WeekOld(stamp: Stamp, now: int, parse: string -> Option<int>)
    ensures DaysOld(stamp, now, parse) >= 7 <==> now - MadeAt(stamp, now, parse) >= 7 * SecondsPerDay
  {
  }

  /** A stored time that does not parse always counts as stale. */
  lemma UnparsedStampIsStale(iso: string, now: int, parse: string -> Option<int>)
    requires parse(iso).None?
    ensures DaysOld(Text(iso), now, parse) == 8
  {
  }

  function MaintenanceMessage(drills: seq<string>): string
  {
    "Today: Maintenance. Recommended: " + Join(drills, ", ") + "."
  }

  /** The message of a level slot. */
  function LevelMessage(zoneLabel: string, level: int, drills: seq<string>): string
  {
    "Today: " + zoneLabel + " Level " + IntToString(level) + ". Recommended drills: " + Join(drills, ", ") + "."
  }

  /** `_format_brief_message`; a missing slot is the empty dict. */
  function FormatBrief(slot: Option<DaySlot>, zones: Zones): string
  {
    match slot
    case None => MaintenanceMessage([])
    case Some(s) =>
      if s.sessionType == "level" && s.zone.Some? && s.zone.value != "" && s.level.Some? && s.level.value != 0 then
        LevelMessage(GetOr(zones, s.zone.value, NoMeta).displayLabel.GetOr(s.zone.value), s.level.value, s.drills)
      else MaintenanceMessage(s.drills)
  }

  datatype Brief = Brief(todaySlot: Option<DaySlot>, goals: seq<Goal>, message: string)

  /** Today's slot: the weekday's slot in rotation, or none. */
  function TodaySlot(slots: seq<DaySlot>, weekday: nat): (r: Option<DaySlot>)
    ensures r.None? <==> slots == []
    ensures r.Some? ==> r.value in slots
  {
    if slots != [] then Some(slots[weekday % |slots|]) else None
  }

  /**
   * `get_daily_brief` for the stored profile `d`, and the profile saved when
   * the plan is rebuilt (None when nothing is saved).
   */
  function BriefOf(d: TutorData, zones: Zones, now: int, nowIso: string, weekday: nat, parse: string -> Option<int>): (Brief, Option<TutorData>)
  {
    var regen := NeedsNewArc(d, now, parse);
    var arc := if regen then ArcOf(d.zoneLevels, zones, nowIso) else d.weeklyArc.value;
    var today := TodaySlot(arc.dailySlots, weekday);
    (Brief(today, arc.goals, FormatBrief(today, zones)),
     if regen then Some(d.(weeklyArc := Some(arc), lastArcGenerated := Some(At(now)))) else None)
  }

  /** `get_daily_brief`: `now`, `nowIso` and `weekday` are the clock's readings. */
  method DailyBrief(store: TutorStore, userId: string, zones: Zones, now: int, nowIso: string, weekday: nat,
                    parse: string -> Option<int>) returns (b: Brief)
    requires store.Valid()
    modifies store
    ensures store.Valid()
    ensures var (res, saved) := BriefOf(old(store.Stored(userId)), zones, now, nowIso, weekday, parse);
      b == res && store.rows == if saved.Some? then old(store.rows)[userId := saved.value] else old(store.rows)
  {
    var profile := store.Load(userId);
    var arc: Arc;
    if profile.weeklyArc.None? {
      arc := GenerateWeeklyArc(store, profile, zones, nowIso, now);
    } else {
      arc := profile.weeklyArc.value;
      if profile.lastArcGenerated.Some? {
        var last := MadeAt(profile.lastArcGenerated.value, now, parse);
        if (now - last) / SecondsPerDay >= 7 {
          arc := GenerateWeeklyArc(store, profile, zones, nowIso, now);
        }
      }
    }
    var today := TodaySlot(arc.dailySlots, weekday);
    b := Brief(today, arc.goals, FormatBrief(today, zones));
  }

  /**
   * A rebuilt plan gives the weekday's slot of the new seven-day plan and
   * is saved; a current plan is used as stored and nothing is saved.
   */
  lemma BriefSpec(d: TutorData, zones: Zones, now: int, nowIso: string, weekday: nat, parse: string -> Option<int>)
    ensures var (b, saved) := BriefOf(d, zones, now, nowIso, weekday, parse);
      (saved.Some? <==> NeedsNewArc(d, now, parse))
      && (NeedsNewArc(d, now, parse) ==>
            b.todaySlot == Some(SlotFor(GoalsOf(d.zoneLevels, zones), weekday % 7)) && b.goals == GoalsOf(d.zoneLevels, zones)
            && saved.value.lastArcGenerated == Some(At(now)) && saved.value.zoneLevels == d.zoneLevels)
      && (!NeedsNewArc(d, now, parse) ==> b.goals == d.weeklyArc.value.goals && (b.todaySlot.None? <==> d.weeklyArc.value.dailySlots == []))
  {
  }

  /** A day with no goals reads as maintenance with the two default drills. */
  lemma MaintenanceBrief(goals: seq<Goal>, day: nat, zones: Zones)
    requires goals == []
    ensures FormatBrief(Some(SlotFor(goals, day)), zones) == MaintenanceMessage(["dhatu_dash", "pronunciation"])
    ensures Join(["dhatu_dash", "pronunciation"], ", ") == "dhatu_dash, pronunciation"
  {
    var drills := ["dhatu_dash", "pronunciation"];
    assert drills[1..] == ["pronunciation"];
  }

  /** A goal's day names the zone's label and the level to attempt, unless that level is 0. */
  lemma LevelBrief(goals: seq<Goal>, day: nat, zones: Zones)
    requires goals != []
    ensures var g := goals[day % |goals|];
      g.zone != "" && g.fromLevel + 1 != 0 ==>
        FormatBrief(Some(SlotFor(goals, day)), zones)
        == LevelMessage(GetOr(zones, g.zone, NoMeta).displayLabel.GetOr(g.zone), g.fromLevel + 1, DrillsFor(g.zone))
  {
  }
}
