/**
 * The spaced-repetition glue of the front end: the app's card state and its
 * conversion to and from the scheduler's card, the 1..4 rating scale, the
 * due test, the card status shown in the interface and the mastery level
 * derived from it. The scheduler itself (the FSRS library's `repeat`) is a
 * parameter: the map from each rating to the card it schedules, a rating
 * without a card standing for a missing result. Times are milliseconds
 * since the epoch; the clock is a parameter.
 */
module Fsrs {
  import opened Wrappers
  import opened Sorting

  /** Milliseconds in a day. */
  const DayMs: int := 24 * 60 * 60 * 1000

  /** A point in time, in milliseconds since the epoch (`Date.getTime()`). */
  type Time = int

  /** The drill modes a card state can belong to. */
  datatype DrillMode =
    | Learn | Recognition | Listen | SeePick | SeeReveal | HearPick | Draw | Production | Parse
    | HearEasy | HearMedium | HearHard | SayEasy | SayMedium | SayHard | DrawEasy | DrawMedium | DrawHard
    | Combined

  /** The mode's name as stored in keys. */
  function ModeName(m: DrillMode): (s: string)
    ensures |s| > 0
  {
    match m
    case Learn => "learn"
    case Recognition => "recognition"
    case Listen => "listen"
    case SeePick => "see-pick"
    case SeeReveal => "see-reveal"
    case HearPick => "hear-pick"
    case Draw => "draw"
    case Production => "production"
    case Parse => "parse"
    case HearEasy => "hear:easy"
    case HearMedium => "hear:medium"
    case HearHard => "hear:hard"
    case SayEasy => "say:easy"
    case SayMedium => "say:medium"
    case SayHard => "say:hard"
    case DrawEasy => "draw:easy"
    case DrawMedium => "draw:medium"
    case DrawHard => "draw:hard"
    case Combined => "combined"
  }

  /** `FSRSState`: the app's record of one card in one mode for one learner. */
  datatype CardState = CardState(
    cardId: string, userId: string, mode: DrillMode,
    stability: real, difficulty: real,
    dueDate: Time, lastReview: Time,
    reps: int, lapses: int)

  /** The scheduler's learning state of a card. */
  datatype LearningState = New | Learning | Review | Relearning

  /** The scheduler's card; `lastReview` is optional there. */
  datatype Card = Card(
    due: Time, stability: real, difficulty: real,
    elapsedDays: int, scheduledDays: int,
    reps: int, lapses: int,
    state: LearningState, lastReview: Option<Time>)

  /** Whole days elapsed, rounded down. */
  function ElapsedDays(now: Time, last: Time): (d: int)
    ensures DayMs * d <= now - last < DayMs * (d + 1)
  {
    (now - last) / DayMs
  }

  /**
   * `stateToFSRSCard`: the scheduler sees a never-reviewed card as new and
   * every other card as in review, with the whole days since its last review.
   */
  function ToCard(s: CardState, now: Time): (c: Card)
    ensures c.state == New <==> s.reps == 0
    ensures c.state == New || c.state == Review
    ensures c.elapsedDays == ElapsedDays(now, s.lastReview) && c.scheduledDays == 0
  {
    Card(s.dueDate, s.stability, s.difficulty,
         ElapsedDays(now, s.lastReview), 0,
         s.reps, s.lapses,
         if s.reps == 0 then New else Review,
         Some(s.lastReview))
  }

  /** `fsrsCardToState`: a card without a last review gets `now` as one. */
  function FromCard(c: Card, cardId: string, userId: string, mode: DrillMode, now: Time): (s: CardState)
    ensures s.cardId == cardId && s.userId == userId && s.mode == mode
    ensures c.lastReview.None? ==> s.lastReview == now
  {
    CardState(cardId, userId, mode, c.stability, c.difficulty, c.due, c.lastReview.GetOr(now), c.reps, c.lapses)
  }

  /** Converting a state to a card and back, under the same identity, gives the state back. */
  lemma CardRoundTrip(s: CardState, now: Time, later: Time)
    ensures FromCard(ToCard(s, now), s.cardId, s.userId, s.mode, later) == s
  {
  }

  /** `createEmptyFSRSState`, from the library's empty card. */
  function EmptyState(empty: Card, cardId: string, userId: string, mode: DrillMode, now: Time): (s: CardState)
    ensures s.cardId == cardId && s.userId == userId && s.mode == mode
    ensures s.reps == empty.reps && s.dueDate == empty.due
  {
    FromCard(empty, cardId, userId, mode, now)
  }

  // ---------------------------------------------------------------------------
  // Ratings
  // ---------------------------------------------------------------------------

  /** The app's rating scale. */
  type Rating = r: int | 1 <= r <= 4 witness 1

  /** The scheduler's grades. */
  datatype Grade = Again | Hard | Good | Easy

  /** `RATING_TO_FSRS`. */
  function ToGrade(r: Rating): (g: Grade)
  {
    if r == 1 then Again else if r == 2 then Hard else if r == 3 then Good else Easy
  }

  /** The rating a grade comes from. */
  function FromGrade(g: Grade): (r: Rating)
  {
    match g
    case Again => 1
    case Hard => 2
    case Good => 3
    case Easy => 4
  }

  /** `RATING_LABELS`. */
  function Label(r: Rating): (l: string)
    ensures l in ["Again", "Hard", "Good", "Easy"]
  {
    if r == 1 then "Again" else if r == 2 then "Hard" else if r == 3 then "Good" else "Easy"
  }

  /** The grade's name. */
  function GradeName(g: Grade): string
  {
    match g
    case Again => "Again"
    case Hard => "Hard"
    case Good => "Good"
    case Easy => "Easy"
  }

  /**
   * The rating map is a bijection, increasing in the rating, and a rating's
   * label names its grade.
   */
  lemma RatingMap(r: Rating, g: Grade)
    ensures FromGrade(ToGrade(r)) == r && ToGrade(FromGrade(g)) == g
    ensures Label(r) == GradeName(ToGrade(r))
    ensures r == 1 <==> ToGrade(r) == Again
    ensures r == 4 <==> ToGrade(r) == Easy
  {
  }

  // ---------------------------------------------------------------------------
  // Scheduling
  // ---------------------------------------------------------------------------

  /**
   * `scheduleCard`: the state the scheduler's card for the rating converts
   * to, or the input state unchanged when there is no card for it.
   */
  function Schedule(s: CardState, r: Rating, scheduling: map<Grade, Card>, now: Time): (t: CardState)
    ensures t.cardId == s.cardId && t.userId == s.userId && t.mode == s.mode
    ensures ToGrade(r) !in scheduling ==> t == s
    ensures ToGrade(r) in scheduling ==>
      var c := scheduling[ToGrade(r)];
      t.dueDate == c.due && t.stability == c.stability && t.difficulty == c.difficulty
      && t.reps == c.reps && t.lapses == c.lapses && t.lastReview == c.lastReview.GetOr(now)
  {
    var g := ToGrade(r);
    if g !in scheduling then s
    else FromCard(scheduling[g], s.cardId, s.userId, s.mode, now)
  }

  // ---------------------------------------------------------------------------
  // Due cards and status
  // ---------------------------------------------------------------------------

  /** `isCardDue`. */
  predicate IsDue(s: CardState, now: Time)
  {
    now >= s.dueDate
  }

  /** `getDaysUntilDue`: the time left rounded up to whole days (negative when overdue). */
  function DaysUntilDue(s: CardState, now: Time): (d: int)
    ensures DayMs * (d - 1) < s.dueDate - now <= DayMs * d
    ensures d <= 0 <==> IsDue(s, now)
  {
    -((now - s.dueDate) / DayMs)
  }

  /** `getDueCards`. */
  function DueCards(cards: seq<CardState>, now: Time): (r: seq<CardState>)
  {
    Filter(cards, c => IsDue(c, now))
  }

  /** The due cards are exactly the cards that are due. */
  lemma DueCardsMembers(cards: seq<CardState>, now: Time)
    ensures forall c :: c in DueCards(cards, now) <==> c in cards && IsDue(c, now)
  {
    FilterMembers(cards, c => IsDue(c, now));
  }

  /** Filtering a concatenation filters each part: with `DueCardsOne`, this fixes the order of the result. */
  lemma {:induction false} DueCardsAppend(a: seq<CardState>, b: seq<CardState>, now: Time)
    ensures DueCards(a + b, now) == DueCards(a, now) + DueCards(b, now)
  {
    if b != [] {
      var b' := b[..|b| - 1];
      DueCardsAppend(a, b', now);
      assert (a + b)[..|a + b| - 1] == a + b';
    } else {
      assert a + b == a;
    }
  }

  /** A single card is kept exactly when it is due. */
  lemma DueCardsOne(c: CardState, now: Time)
    ensures DueCards([c], now) == if IsDue(c, now) then [c] else []
  {
    assert [c][..0] == [];
  }

  /** `getCardStatus`, as the status names the interface uses. */
  function Status(s: CardState, now: Time): (st: string)
    ensures st in ["new", "learning", "review", "relearning", "due"]
  {
    if s.reps == 0 then "new"
    else if s.lapses > 0 && s.reps < 3 then "relearning"
    else if s.stability < 1.0 then "learning"
    else if IsDue(s, now) then "due"
    else "review"
  }

  /** Each status, and the conditions under which a card has it. */
  lemma StatusCases(s: CardState, now: Time)
    ensures Status(s, now) == "new" <==> s.reps == 0
    ensures Status(s, now) == "relearning" <==> s.reps != 0 && s.lapses > 0 && s.reps < 3
    ensures Status(s, now) == "learning" <==> s.reps != 0 && !(s.lapses > 0 && s.reps < 3) && s.stability < 1.0
    ensures Status(s, now) == "due" <==> s.reps != 0 && !(s.lapses > 0 && s.reps < 3) && s.stability >= 1.0 && IsDue(s, now)
    ensures Status(s, now) == "review" <==> s.reps != 0 && !(s.lapses > 0 && s.reps < 3) && s.stability >= 1.0 && !IsDue(s, now)
  {
  }

  /** `getMasteryLevel`: new 0, learning and relearning 1, due 2, review 3. */
  function Mastery(s: CardState, now: Time): (level: nat)
    ensures level <= 3
  {
    var st := Status(s, now);
    if st == "new" then 0
    else if st == "learning" || st == "relearning" then 1
    else if st == "due" then 2
    else 3
  }

  /**
   * The mastery level in the card's own terms: 0 exactly for unreviewed
   * cards, 3 exactly for stable cards in review that are not yet due, and a
   * due card ranks below the same card before its due date.
   */
  lemma MasteryLevels(s: CardState, now: Time, earlier: Time)
    ensures Mastery(s, now) == 0 <==> s.reps == 0
    ensures Mastery(s, now) == 3 <==> s.reps != 0 && !(s.lapses > 0 && s.reps < 3) && s.stability >= 1.0 && !IsDue(s, now)
    ensures earlier <= now && Status(s, now) == "due" && !IsDue(s, earlier) ==> Mastery(s, now) < Mastery(s, earlier)
  {
    StatusCases(s, now);
    StatusCases(s, earlier);
  }
}
