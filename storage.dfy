/**
 * The client's progress store: card states keyed by card and mode, the
 * session history, user preferences, completed chapters and drill-level
 * flags, each kept under one localStorage key as JSON. Each key is a `Slot`
 * field of a `BrowserStore`: a parsed JSON object is a `Table`, which keeps
 * the insertion order and the distinct keys of a JavaScript object, and
 * dates are kept as their ISO strings, modelled by the instant they denote.
 * `browser` is false during server-side rendering, where `window` is
 * undefined.
 */
module ProgressStorage {
  import opened Wrappers
  import opened Tables
  import Fsrs

  // ---------------------------------------------------------------------------
  // Card states
  // ---------------------------------------------------------------------------

  /** A date as its `toISOString()` text: the text is determined by, and parses back to, the instant. */
  datatype IsoDate = IsoDate(instant: Fsrs.Time)

  /** `StorageCardState`: a card state with its two dates as ISO strings. */
  datatype StoredCard = StoredCard(
    cardId: string, userId: string, mode: Fsrs.DrillMode,
    stability: real, difficulty: real,
    dueDate: IsoDate, lastReview: IsoDate,
    reps: int, lapses: int)

  /** `toStorageCardState`. */
  function ToStored(s: Fsrs.CardState): (c: StoredCard)
    ensures c.cardId == s.cardId && c.userId == s.userId && c.mode == s.mode
  {
    StoredCard(s.cardId, s.userId, s.mode, s.stability, s.difficulty,
               IsoDate(s.dueDate), IsoDate(s.lastReview), s.reps, s.lapses)
  }

  /** `fromStorageCardState`. */
  function FromStored(c: StoredCard): (s: Fsrs.CardState)
    ensures s.cardId == c.cardId && s.userId == c.userId && s.mode == c.mode
  {
    Fsrs.CardState(c.cardId, c.userId, c.mode, c.stability, c.difficulty,
                   c.dueDate.instant, c.lastReview.instant, c.reps, c.lapses)
  }

  /** Storing a card state and reading it back reproduces it, and the other way round. */
  lemma StoredRoundTrip(s: Fsrs.CardState, c: StoredCard)
    ensures FromStored(ToStored(s)) == s
    ensures ToStored(FromStored(c)) == c
  {
  }

  /** The key of a card state: `${cardId}:${mode}`. */
  function CardKey(cardId: string, mode: string): (k: string)
    ensures |k| == |cardId| + 1 + |mode| && k[|cardId|] == ':'
    ensures k[..|cardId|] == cardId && k[|cardId| + 1..] == mode
  {
    cardId + ":" + mode
  }

  /** Two keys with card ids free of ':' are equal only for equal ids and modes. */
  lemma CardKeyInjective(id1: string, m1: string, id2: string, m2: string)
    requires ':' !in id1 && ':' !in id2
    requires CardKey(id1, m1) == CardKey(id2, m2)
    ensures id1 == id2 && m1 == m2
  {
    if |id1| != |id2| {
      assert false;
    }
  }

  // ---------------------------------------------------------------------------
  // Session history
  // ---------------------------------------------------------------------------

  const MaxSessions: nat := 100

  datatype SessionRecord = SessionRecord(id: string, timestamp: string, cardsReviewed: int, cardsCorrect: int, duration: int, chapter: Option<int>)

  /** The history after appending one record: the oldest is dropped once there are more than 100. */
  function Appended(history: seq<SessionRecord>, r: SessionRecord): (h: seq<SessionRecord>)
    ensures |history| < MaxSessions ==> h == history + [r]
    ensures |history| >= MaxSessions ==> h == (history + [r])[1..]
  {
    var pushed := history + [r];
    if |pushed| > MaxSessions then pushed[1..] else pushed
  }

  /**
   * The new record is last, what remains is the latest records in order, and
   * a history of at most 100 records stays at most 100 long.
   */
  lemma AppendedKeepsLatest(history: seq<SessionRecord>, r: SessionRecord)
    ensures |Appended(history, r)| > 0 && Appended(history, r)[|Appended(history, r)| - 1] == r
    ensures exists d :: 0 <= d <= 1 && Appended(history, r) == (history + [r])[d..]
    ensures |history| <= MaxSessions ==> |Appended(history, r)| <= MaxSessions
    ensures |history| < MaxSessions ==> |Appended(history, r)| == |history| + 1
  {
    if |history| >= MaxSessions {
      assert Appended(history, r) == (history + [r])[1..];
    } else {
      assert Appended(history, r) == (history + [r])[0..];
    }
  }

  // ---------------------------------------------------------------------------
  // Preferences
  // ---------------------------------------------------------------------------

  datatype Theme = Dark | Light | Auto

  datatype Preferences = Preferences(autoplayAudio: bool, cardsPerSession: int, showHints: bool, theme: Theme)

  /** A `Partial<UserPreferences>`: the fields an object sets. */
  datatype PreferencesPatch = PreferencesPatch(autoplayAudio: Option<bool>, cardsPerSession: Option<int>, showHints: Option<bool>, theme: Option<Theme>)

  const DefaultPreferences: Preferences := Preferences(true, 20, true, Dark)

  /** `{ ...p, ...patch }`. */
  function Overlay(p: Preferences, patch: PreferencesPatch): (r: Preferences)
    ensures patch.autoplayAudio.Some? ==> r.autoplayAudio == patch.autoplayAudio.value
    ensures patch.autoplayAudio.None? ==> r.autoplayAudio == p.autoplayAudio
    ensures patch.cardsPerSession.Some? ==> r.cardsPerSession == patch.cardsPerSession.value
    ensures patch.cardsPerSession.None? ==> r.cardsPerSession == p.cardsPerSession
    ensures patch.showHints.Some? ==> r.showHints == patch.showHints.value
    ensures patch.showHints.None? ==> r.showHints == p.showHints
    ensures patch.theme.Some? ==> r.theme == patch.theme.value
    ensures patch.theme.None? ==> r.theme == p.theme
  {
    Preferences(patch.autoplayAudio.GetOr(p.autoplayAudio), patch.cardsPerSession.GetOr(p.cardsPerSession),
                patch.showHints.GetOr(p.showHints), patch.theme.GetOr(p.theme))
  }

  /** A full object, as `JSON.stringify` writes it. */
  function AsPatch(p: Preferences): (patch: PreferencesPatch)
    ensures patch.autoplayAudio.Some? && patch.cardsPerSession.Some? && patch.showHints.Some? && patch.theme.Some?
  {
    PreferencesPatch(Some(p.autoplayAudio), Some(p.cardsPerSession), Some(p.showHints), Some(p.theme))
  }

  /** A written object overrides every default: it reads back as itself. */
  lemma AsPatchReadsBack(p: Preferences, base: Preferences)
    ensures Overlay(base, AsPatch(p)) == p
  {
  }

  /** The empty patch changes nothing, and overlaying twice is overlaying the combined patch. */
  lemma OverlayLaws(p: Preferences, a: PreferencesPatch, b: PreferencesPatch)
    ensures Overlay(p, PreferencesPatch(None, None, None, None)) == p
    ensures Overlay(Overlay(p, a), b) == Overlay(p, PreferencesPatch(
      if b.autoplayAudio.Some? then b.autoplayAudio else a.autoplayAudio,
      if b.cardsPerSession.Some? then b.cardsPerSession else a.cardsPerSession,
      if b.showHints.Some? then b.showHints else a.showHints,
      if b.theme.Some? then b.theme else a.theme))
  {
  }

  // ---------------------------------------------------------------------------
  // Chapters and drill levels
  // ---------------------------------------------------------------------------

  /** The chapter list after marking `c`: appended only when absent. */
  function MarkChapter(chapters: seq<int>, c: int): (r: seq<int>)
    ensures c in r && forall x :: x in r <==> x in chapters || x == c
  {
    if c in chapters then chapters else chapters + [c]
  }

  predicate NoDuplicates(s: seq<int>)
  {
    forall i, j :: 0 <= i < j < |s| ==> s[i] != s[j]
  }

  /** Marking is idempotent and never introduces a duplicate. */
  lemma MarkChapterLaws(chapters: seq<int>, c: int)
    ensures MarkChapter(MarkChapter(chapters, c), c) == MarkChapter(chapters, c)
    ensures NoDuplicates(chapters) ==> NoDuplicates(MarkChapter(chapters, c))
  {
  }

  /** `DrillLevelKey`. */
  predicate IsDrillLevelKey(k: string)
  {
    k in ["hear:easy", "hear:medium", "hear:hard", "say:easy", "say:medium", "say:hard",
          "draw:easy", "draw:medium", "draw:hard", "combined"]
  }

  /** `isDrillLevelUnlocked`: every drill level is open. */
  function DrillLevelUnlocked(k: string): (open: bool)
    ensures open
  {
    true
  }

  // ---------------------------------------------------------------------------
  // The store
  // ---------------------------------------------------------------------------

  class BrowserStore {
    /** `typeof window !== "undefined"`. */
    const browser: bool
    var cardStates: Slot<Table<StoredCard>>
    var sessionHistory: Slot<seq<SessionRecord>>
    var preferences: Slot<PreferencesPatch>
    var completedChapters: Slot<seq<int>>
    var drillLevels: Slot<Table<bool>>

    /** Parsed JSON objects have distinct keys. */
    ghost predicate Valid()
      reads this
    {
      && (cardStates.Present? ==> DistinctKeys(cardStates.value))
      && (drillLevels.Present? ==> DistinctKeys(drillLevels.value))
    }

    /** An empty store (nothing under any key). */
    constructor(inBrowser: bool)
      ensures browser == inBrowser && Valid()
      ensures cardStates == Absent && sessionHistory == Absent && preferences == Absent
      ensures completedChapters == Absent && drillLevels == Absent
    {
      browser := inBrowser;
      cardStates := Absent;
      sessionHistory := Absent;
      preferences := Absent;
      completedChapters := Absent;
      drillLevels := Absent;
    }

    // ---- card states

    /** `getCardStates`: the stored object, or `{}` on the server, when nothing is stored or on a parse error. */
    function CardStates(): (t: Table<StoredCard>)
      reads this
      ensures !browser ==> t == []
      ensures browser ==> t == cardStates.OrElse([])
    {
      if !browser then [] else cardStates.OrElse([])
    }

    /** `getCardState`: the state stored under the card's key, or null. */
    function GetCardState(cardId: string, mode: string): (r: Option<Fsrs.CardState>)
      reads this
      ensures r.None? <==> !HasKey(CardStates(), CardKey(cardId, mode))
      ensures r.Some? ==> Get(CardStates(), CardKey(cardId, mode)) == Some(ToStored(r.value))
    {
      match Get(CardStates(), CardKey(cardId, mode))
      case None => None
      case Some(c) => StoredRoundTrip(FromStored(c), c); Some(FromStored(c))
    }

    /** `getAllCardStates`: every stored state, in key insertion order. */
    function AllCardStates(): (r: seq<Fsrs.CardState>)
      reads this
      ensures |r| == |CardStates()|
      ensures forall i :: 0 <= i < |r| ==> ToStored(r[i]) == CardStates()[i].1
    {
      var t := CardStates();
      seq(|t|, i requires 0 <= i < |t| => FromStored(t[i].1))
    }

    /** `saveCardState`: write the state under its key, keeping every other key (nothing on the server). */
    method SaveCardState(s: Fsrs.CardState)
      requires Valid()
      modifies this
      ensures !browser ==> cardStates == old(cardStates)
      ensures browser ==> cardStates == Present(Put(old(CardStates()), CardKey(s.cardId, Fsrs.ModeName(s.mode)), ToStored(s)))
      ensures sessionHistory == old(sessionHistory) && preferences == old(preferences)
      ensures completedChapters == old(completedChapters) && drillLevels == old(drillLevels)
      ensures Valid()
    {
      if !browser {
        return;
      }
      var t := CardStates();
      PutGet(t, CardKey(s.cardId, Fsrs.ModeName(s.mode)), ToStored(s), "");
      cardStates := Present(Put(t, CardKey(s.cardId, Fsrs.ModeName(s.mode)), ToStored(s)));
    }

    /**
     * `clearCardStates`. It does not test for a browser either: on the server
     * the call raises and nothing is removed.
     */
    method ClearCardStates() returns (raised: bool)
      modifies this
      ensures raised <==> !browser
      ensures browser ==> cardStates == Absent
      ensures !browser ==> cardStates == old(cardStates)
      ensures sessionHistory == old(sessionHistory) && preferences == old(preferences)
      ensures completedChapters == old(completedChapters) && drillLevels == old(drillLevels)
    {
      raised := !browser;
      if browser {
        cardStates := Absent;
      }
    }

    // ---- session history

    /** `getSessionHistory`. */
    function SessionHistory(): (h: seq<SessionRecord>)
      reads this
      ensures !browser ==> h == []
      ensures browser ==> h == sessionHistory.OrElse([])
    {
      if !browser then [] else sessionHistory.OrElse([])
    }

    /**
     * `saveSessionRecord`: append and keep the latest 100. It does not test
     * for a browser, so on the server the final write raises.
     */
    method SaveSessionRecord(r: SessionRecord) returns (raised: bool)
      modifies this
      ensures raised <==> !browser
      ensures browser ==> sessionHistory == Present(Appended(old(SessionHistory()), r))
      ensures !browser ==> sessionHistory == old(sessionHistory)
      ensures cardStates == old(cardStates) && preferences == old(preferences)
      ensures completedChapters == old(completedChapters) && drillLevels == old(drillLevels)
    {
      var history := SessionHistory();
      history := history + [r];
      if |history| > MaxSessions {
        history := history[1..];
      }
      if !browser {
        return true;
      }
      sessionHistory := Present(history);
      return false;
    }

    // ---- preferences

    /** `getUserPreferences`: the stored fields over the defaults; the defaults alone on the server, without data or on a parse error. */
    function UserPreferences(): (p: Preferences)
      reads this
      ensures !browser || !preferences.Present? ==> p == DefaultPreferences
      ensures browser && preferences.Present? ==> p == Overlay(DefaultPreferences, preferences.value)
    {
      if !browser then DefaultPreferences
      else Overlay(DefaultPreferences, preferences.OrElse(PreferencesPatch(None, None, None, None)))
    }

    /** `saveUserPreferences`: the patch over the current preferences, written in full. */
    method SaveUserPreferences(patch: PreferencesPatch)
      modifies this
      ensures browser ==> preferences == Present(AsPatch(Overlay(old(UserPreferences()), patch)))
      ensures !browser ==> preferences == old(preferences)
      ensures cardStates == old(cardStates) && sessionHistory == old(sessionHistory)
      ensures completedChapters == old(completedChapters) && drillLevels == old(drillLevels)
    {
      if !browser {
        return;
      }
      var current := UserPreferences();
      preferences := Present(AsPatch(Overlay(current, patch)));
    }

    // ---- chapters

    /** `getCompletedChapters` (no browser test: on the server the read raises and is caught). */
    function CompletedChapters(): (c: seq<int>)
      reads this
      ensures !browser ==> c == []
      ensures browser ==> c == completedChapters.OrElse([])
    {
      if !browser then [] else completedChapters.OrElse([])
    }

    /** `isChapterCompleted`. */
    predicate IsChapterCompleted(c: int)
      reads this
    {
      c in CompletedChapters()
    }

    /**
     * `markChapterCompleted`: append the chapter when absent and write the
     * list; an already marked chapter writes nothing. On the server the
     * list reads as empty and the write raises.
     */
    method MarkChapterCompleted(c: int) returns (raised: bool)
      modifies this
      ensures raised <==> !browser
      ensures browser ==> CompletedChapters() == MarkChapter(old(CompletedChapters()), c)
      ensures browser && c in old(CompletedChapters()) ==> completedChapters == old(completedChapters)
      ensures browser && c !in old(CompletedChapters()) ==> completedChapters == Present(old(CompletedChapters()) + [c])
      ensures !browser ==> completedChapters == old(completedChapters)
      ensures cardStates == old(cardStates) && sessionHistory == old(sessionHistory)
      ensures preferences == old(preferences) && drillLevels == old(drillLevels)
    {
      var completed := CompletedChapters();
      if c !in completed {
        completed := completed + [c];
        if !browser {
          return true;
        }
        completedChapters := Present(completed);
      }
      return false;
    }

    // ---- drill levels

    /** `getDrillLevelProgress`. */
    function DrillLevelProgress(): (t: Table<bool>)
      reads this
      ensures !browser ==> t == []
      ensures browser ==> t == drillLevels.OrElse([])
    {
      if !browser then [] else drillLevels.OrElse([])
    }

    /** `markDrillLevelCompleted`: set one flag to true, keeping the others. */
    method MarkDrillLevelCompleted(key: string)
      requires IsDrillLevelKey(key) && Valid()
      modifies this
      ensures browser ==> drillLevels == Present(Put(old(DrillLevelProgress()), key, true))
      ensures !browser ==> drillLevels == old(drillLevels)
      ensures cardStates == old(cardStates) && sessionHistory == old(sessionHistory)
      ensures preferences == old(preferences) && completedChapters == old(completedChapters)
      ensures Valid()
    {
      if !browser {
        return;
      }
      var progress := DrillLevelProgress();
      PutGet(progress, key, true, "");
      drillLevels := Present(Put(progress, key, true));
    }

    /**
     * `clearAllData`: every key removed. On the server the first removal
     * raises and nothing is removed.
     */
    method ClearAllData() returns (raised: bool)
      requires Valid()
      modifies this
      ensures raised <==> !browser
      ensures browser ==> cardStates == Absent && sessionHistory == Absent && preferences == Absent
      ensures browser ==> completedChapters == Absent && drillLevels == Absent
      ensures !browser ==> cardStates == old(cardStates) && sessionHistory == old(sessionHistory)
      ensures !browser ==> preferences == old(preferences) && completedChapters == old(completedChapters)
      ensures !browser ==> drillLevels == old(drillLevels)
      ensures Valid()
    {
      raised := !browser;
      if browser {
        cardStates := Absent;
        sessionHistory := Absent;
        preferences := Absent;
        completedChapters := Absent;
        drillLevels := Absent;
      }
    }
  }

  // ---------------------------------------------------------------------------
  // Properties across calls
  // ---------------------------------------------------------------------------

  /**
   * In the browser, a saved card state reads back under its own card and
   * mode, and every other key reads as before.
   */
  lemma SaveThenGet(before: Table<StoredCard>, s: Fsrs.CardState, cardId: string, mode: string)
    requires DistinctKeys(before)
    ensures var after := Put(before, CardKey(s.cardId, Fsrs.ModeName(s.mode)), ToStored(s));
      && Get(after, CardKey(s.cardId, Fsrs.ModeName(s.mode))) == Some(ToStored(s))
      && (CardKey(cardId, mode) != CardKey(s.cardId, Fsrs.ModeName(s.mode)) ==>
            Get(after, CardKey(cardId, mode)) == Get(before, CardKey(cardId, mode)))
  {
    PutGet(before, CardKey(s.cardId, Fsrs.ModeName(s.mode)), ToStored(s), CardKey(cardId, mode));
  }

  /** In the browser, preferences saved with a patch read back as the patch over the preferences read before. */
  lemma SavedPreferencesReadBack(before: Preferences, patch: PreferencesPatch)
    ensures Overlay(DefaultPreferences, AsPatch(Overlay(before, patch))) == Overlay(before, patch)
  {
    AsPatchReadsBack(Overlay(before, patch), DefaultPreferences);
  }

  /** A drill level once marked reads as true, and the other levels keep their flags. */
  lemma MarkedLevelIsSet(before: Table<bool>, key: string, other: string)
    requires DistinctKeys(before)
    ensures Get(Put(before, key, true), key) == Some(true)
    ensures other != key ==> Get(Put(before, key, true), other) == Get(before, other)
  {
    PutGet(before, key, true, other);
  }
}
